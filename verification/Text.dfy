/** Optional and failing results, for the source's (value, ok) and (value, error) returns. */
module Results {
  datatype Option<+T> = None | Some(value: T)

  datatype Result<+T, +E> = Ok(value: T) | Err(error: E)
}

/** The parts of Go's `strings` package that the exporter relies on. */
module Text {
  import opened Results

  /** `strings.Split` for a one-character separator. */
  function Split(s: string, sep: char): (parts: seq<string>)
    ensures |parts| >= 1
  {
    if s == "" then [""]
    else
      var rest := Split(s[1..], sep);
      if s[0] == sep then [""] + rest else [[s[0]] + rest[0]] + rest[1..]
  }

  /** `strings.Join`. */
  function Join(parts: seq<string>, sep: string): string {
    if |parts| == 0 then ""
    else if |parts| == 1 then parts[0]
    else parts[0] + sep + Join(parts[1..], sep)
  }

  /** `strings.Cut` for a one-character separator. */
  function Cut(s: string, sep: char): Option<(string, string)> {
    if s == "" then None
    else if s[0] == sep then Some(("", s[1..]))
    else match Cut(s[1..], sep)
      case None => None
      case Some(p) => Some(([s[0]] + p.0, p.1))
  }

  /** `unicode.IsSpace`, the class `strings.TrimSpace` strips. */
  predicate IsSpace(c: char) {
    var n := c as int;
    || 0x09 <= n <= 0x0D || n == 0x20 || n == 0x85 || n == 0xA0 || n == 0x1680
    || 0x2000 <= n <= 0x200A || n == 0x2028 || n == 0x2029 || n == 0x202F || n == 0x205F || n == 0x3000
  }

  /** `len(strings.TrimSpace(s)) == 0`. */
  predicate Blank(s: string) {
    forall i :: 0 <= i < |s| ==> IsSpace(s[i])
  }

  function TrimLeft(s: string): string {
    if s != "" && IsSpace(s[0]) then TrimLeft(s[1..]) else s
  }

  /** Trimming leaves nothing exactly of a blank text; blanks, tabs and line ends are trimmed, printing ASCII is not. */
  lemma {:induction false} BlankIff(s: string)
    ensures Blank(s) <==> TrimLeft(s) == ""
    ensures IsSpace(' ') && IsSpace('\t') && IsSpace('\n') && IsSpace('\r')
    ensures forall c :: '!' <= c <= '~' ==> !IsSpace(c)
  {
    if s != "" {
      BlankIff(s[1..]);
      assert Blank(s) <==> IsSpace(s[0]) && Blank(s[1..]) by {
        assert forall i :: 1 <= i < |s| ==> s[i] == s[1..][i - 1];
      }
    }
  }

  predicate Free(s: string, c: char) {
    c !in s
  }

  /** The first occurrence of a separator determines both sides of it. */
  lemma FirstOccurrence(a: string, b: string, a': string, b': string, c: char)
    requires Free(a, c) && Free(a', c)
    requires a + [c] + b == a' + [c] + b'
    ensures a == a' && b == b'
  {
    var s, s' := a + [c] + b, a' + [c] + b';
    assert forall i :: 0 <= i < |a| ==> s[i] == a[i];
    assert forall i :: 0 <= i < |a'| ==> s'[i] == a'[i];
    assert s[|a|] == c && s'[|a'|] == c;
    assert |a| == |a'|;
    assert a == s[..|a|] && a' == s'[..|a'|];
    assert b == s[|a| + 1..] && b' == s'[|a'| + 1..];
  }

  lemma CancelPrefix(h: string, a: string, b: string)
    requires h + a == h + b
    ensures a == b
  {
    assert (h + a)[|h|..] == a && (h + b)[|h|..] == b;
  }

  /** `Cut` succeeds exactly on the decompositions whose left side is free of the separator. */
  lemma {:induction false} CutSpec(s: string, sep: char, a: string, b: string)
    ensures Cut(s, sep) == Some((a, b)) <==> s == a + [sep] + b && Free(a, sep)
    ensures Cut(s, sep) == None <==> Free(s, sep)
  {
    if s != "" {
      var tail := s[1..];
      assert s == [s[0]] + tail;
      if s[0] == sep {
        if s == a + [sep] + b && Free(a, sep) {
          FirstOccurrence("", tail, a, b, sep);
        }
        assert "" + [sep] + tail == s;
      } else if a == "" {
        assert a + [sep] + b == [sep] + b;
        CutSpec(tail, sep, a, b);
      } else {
        CutSpec(tail, sep, a[1..], b);
        assert a == [a[0]] + a[1..];
        assert a + [sep] + b == [a[0]] + (a[1..] + [sep] + b);
        if Cut(s, sep) == Some((a, b)) {
          assert a[1..] == Cut(tail, sep).value.0;
        }
      }
    }
  }

  lemma {:induction false} SplitAfterField(a: string, b: string, sep: char)
    requires Free(a, sep)
    ensures Split(a + [sep] + b, sep) == [a] + Split(b, sep)
    ensures Split(a, sep) == [a]
  {
    var s := a + [sep] + b;
    if a == "" {
      assert s[1..] == b;
    } else {
      assert s[1..] == a[1..] + [sep] + b;
      SplitAfterField(a[1..], b, sep);
      assert [a[0]] + a[1..] == a;
    }
  }

  /** Splitting undoes joining for fields that do not contain the separator. */
  lemma {:induction false} SplitJoin(parts: seq<string>, sep: char)
    requires |parts| >= 1
    requires forall p :: p in parts ==> Free(p, sep)
    ensures Split(Join(parts, [sep]), sep) == parts
  {
    if |parts| == 1 {
      SplitAfterField(parts[0], "", sep);
      assert parts == [parts[0]];
    } else {
      SplitJoin(parts[1..], sep);
      SplitAfterField(parts[0], Join(parts[1..], [sep]), sep);
      assert parts == [parts[0]] + parts[1..];
    }
  }

  /** Joining undoes splitting, and no field holds the separator. */
  lemma {:induction false} JoinSplit(s: string, sep: char)
    ensures Join(Split(s, sep), [sep]) == s
    ensures forall p :: p in Split(s, sep) ==> Free(p, sep)
  {
    if s != "" {
      var rest := Split(s[1..], sep);
      JoinSplit(s[1..], sep);
      if s[0] == sep {
        assert ([""] + rest)[1..] == rest;
      } else {
        var parts := [[s[0]] + rest[0]] + rest[1..];
        assert parts[1..] == rest[1..];
        assert forall p :: p in parts ==> p == parts[0] || p in rest[1..];
        assert rest[0] in rest;
        assert s == [s[0]] + s[1..];
      }
    }
  }
}
