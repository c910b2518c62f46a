/** The broker version packed into one number, three decimal digits per component. */
module VersionNumber {
  import opened Text

  predicate Digits(s: string) {
    forall i :: 0 <= i < |s| ==> '0' <= s[i] <= '9'
  }

  /** The decimal value of a digit string. */
  function Value(s: string): nat
    requires Digits(s)
  {
    if s == "" then 0 else 10 * Value(s[..|s| - 1]) + (s[|s| - 1] - '0') as int
  }

  /** Formatting with `%03v`: at least three characters, zeros to the left. */
  function Pad(s: string): string {
    if |s| == 0 then "000" else if |s| == 1 then "00" + s else if |s| == 2 then "0" + s else s
  }

  function Packed(components: seq<string>): string {
    if components == [] then "" else Packed(components[..|components| - 1]) + Pad(components[|components| - 1])
  }

  function TrimPrefix(s: string, prefix: string): string {
    if prefix <= s then s[|prefix|..] else s
  }

  /** The loop of the source over the dot-separated components. */
  method PackVersion(currentLoad: string) returns (buffer: string)
    ensures forall version :: currentLoad == "soltr_" + version ==> buffer == Packed(Split(version, '.'))
    ensures !("soltr_" <= currentLoad) ==> buffer == Packed(Split(currentLoad, '.'))
  {
    var components := Split(TrimPrefix(currentLoad, "soltr_"), '.');
    assert forall version :: currentLoad == "soltr_" + version ==> TrimPrefix(currentLoad, "soltr_") == version;
    buffer := "";
    for i := 0 to |components|
      invariant buffer == Packed(components[..i])
    {
      buffer := buffer + Pad(components[i]);
      assert components[..i + 1][..i] == components[..i];
    }
    assert components[..|components|] == components;
  }

  predicate AllDigits(cs: seq<string>) {
    forall i :: 0 <= i < |cs| ==> Digits(cs[i])
  }

  /** Components of decimal digits, at most `w` of them in every component but the first. */
  predicate Width(cs: seq<string>, w: nat) {
    AllDigits(cs) && forall i :: 1 <= i < |cs| ==> |cs[i]| <= w
  }

  function Numbers(cs: seq<string>): (ns: seq<nat>)
    requires AllDigits(cs)
    ensures |ns| == |cs|
  {
    seq(|cs|, i requires 0 <= i < |cs| => Value(cs[i]))
  }

  /** Base 1000, most significant first. */
  function Weigh(ns: seq<nat>): nat {
    if ns == [] then 0 else 1000 * Weigh(ns[..|ns| - 1]) + ns[|ns| - 1]
  }

  /** All numbers but the first are base-1000 digits. */
  predicate TailBelow(ns: seq<nat>) {
    forall i :: 1 <= i < |ns| ==> ns[i] < 1000
  }

  lemma {:induction false} ValueConcat3(s: string, t: string)
    requires Digits(s) && Digits(t) && |t| == 3
    ensures Digits(s + t) && Value(s + t) == 1000 * Value(s) + Value(t) && Value(t) < 1000
  {
    var u := s + t;
    assert u[..|u| - 1] == s + t[..2] && (s + t[..2])[..|s| + 1] == s + t[..1] && (s + t[..1])[..|s|] == s;
    assert t[..2][..1] == t[..1] && t[..1][..0] == "";
    assert Value(s + t[..1]) == 10 * Value(s) + (t[0] - '0') as int;
    assert Value(s + t[..2]) == 10 * Value(s + t[..1]) + (t[1] - '0') as int;
    assert Value(t[..1]) == (t[0] - '0') as int;
    assert Value(t[..2]) == 10 * Value(t[..1]) + (t[1] - '0') as int;
  }

  lemma PadKeepsValue(c: string)
    requires Digits(c)
    ensures Digits(Pad(c)) && Value(Pad(c)) == Value(c)
    ensures |c| <= 3 ==> |Pad(c)| == 3
  {
    if |c| == 0 {
      NoDigitsPadded();
    } else if |c| == 1 {
      LeadingZero(c);
      LeadingZero("0" + c);
      assert "0" + ("0" + c) == "00" + c;
    } else if |c| == 2 {
      LeadingZero(c);
    }
  }

  lemma NoDigitsPadded()
    ensures Digits("000") && Value("000") == 0
  {
    LeadingZero("");
    LeadingZero("0");
    LeadingZero("00");
    assert "0" + "" == "0" && "0" + "0" == "00" && "0" + "00" == "000";
  }

  lemma {:induction false} LeadingZero(s: string)
    requires Digits(s)
    ensures Digits("0" + s) && Value("0" + s) == Value(s)
  {
    if s == "" {
      assert "0"[..0] == "";
    } else {
      assert ("0" + s)[..|s|] == "0" + s[..|s| - 1];
      LeadingZero(s[..|s| - 1]);
    }
  }

  lemma OneMoreComponent(packed: string, c: string)
    requires Digits(packed) && Digits(c) && |c| <= 3
    ensures Digits(packed + Pad(c))
    ensures Value(packed + Pad(c)) == 1000 * Value(packed) + Value(c) && Value(c) < 1000
  {
    PadKeepsValue(c);
    ValueConcat3(packed, Pad(c));
  }

  lemma NumbersBelow(cs: seq<string>)
    requires Width(cs, 3)
    ensures TailBelow(Numbers(cs))
  {
    forall i | 1 <= i < |cs|
      ensures Value(cs[i]) < 1000
    {
      OneMoreComponent("", cs[i]);
    }
  }

  lemma PackedSnoc(cs: seq<string>, c: string)
    ensures Packed(cs + [c]) == Packed(cs) + Pad(c)
  {
    assert (cs + [c])[..|cs|] == cs;
  }

  lemma WeighSnoc(cs: seq<string>, c: string)
    requires AllDigits(cs) && Digits(c)
    ensures AllDigits(cs + [c]) && Weigh(Numbers(cs + [c])) == 1000 * Weigh(Numbers(cs)) + Value(c)
  {
    var ns := Numbers(cs + [c]);
    assert ns[..|cs|] == Numbers(cs) && ns[|cs|] == Value(c);
  }

  lemma FirstComponent(c: string)
    requires Digits(c)
    ensures Packed([c]) == Pad(c) && Weigh(Numbers([c])) == Value(c)
  {
    assert [c][..0] == [] && Numbers([c])[..0] == [];
    assert "" + Pad(c) == Pad(c);
  }

  /** The packed text is the base-1000 number of the components, however wide the first one is. */
  lemma {:induction false} PackedIsWeighted(cs: seq<string>)
    requires Width(cs, 3)
    ensures Digits(Packed(cs)) && Value(Packed(cs)) == Weigh(Numbers(cs))
  {
    if |cs| == 1 {
      assert cs == [cs[0]];
      FirstComponent(cs[0]);
      PadKeepsValue(cs[0]);
    } else if cs != [] {
      var init, last := cs[..|cs| - 1], cs[|cs| - 1];
      PackedIsWeighted(init);
      assert cs == init + [last];
      PackedSnoc(init, last);
      WeighSnoc(init, last);
      OneMoreComponent(Packed(init), last);
    }
  }

  /** Lexicographic order. */
  predicate Less(a: seq<nat>, b: seq<nat>)
    requires |a| == |b|
  {
    a != [] &&
    var n := |a| - 1;
    Less(a[..n], b[..n]) || (a[..n] == b[..n] && a[n] < b[n])
  }

  /** `Less` is the usual order: the first difference decides. */
  lemma {:induction false} LessAtFirstDifference(a: seq<nat>, b: seq<nat>, i: nat)
    requires |a| == |b| && i < |a| && a[..i] == b[..i] && a[i] != b[i]
    ensures Less(a, b) <==> a[i] < b[i]
  {
    var n := |a| - 1;
    if i < n {
      assert a[..n][..i] == a[..i] && b[..n][..i] == b[..i];
      LessAtFirstDifference(a[..n], b[..n], i);
      assert a[..n][i] != b[..n][i];
    } else {
      IrreflexiveLess(a[..n]);
    }
  }

  lemma {:induction false} IrreflexiveLess(a: seq<nat>)
    ensures !Less(a, a)
  {
    if a != [] {
      IrreflexiveLess(a[..|a| - 1]);
    }
  }

  lemma {:induction false} WeighOrders(a: seq<nat>, b: seq<nat>)
    requires |a| == |b| && TailBelow(a) && TailBelow(b)
    ensures Weigh(a) < Weigh(b) <==> Less(a, b)
    ensures Weigh(a) == Weigh(b) <==> a == b
  {
    if a != [] {
      var n := |a| - 1;
      WeighOrders(a[..n], b[..n]);
      assert a == a[..n] + [a[n]] && b == b[..n] + [b[n]];
    }
  }

  /** Packed numbers order exactly as versions do, and different versions get different numbers. */
  lemma PackingOrders(cs: seq<string>, ds: seq<string>)
    requires |cs| == |ds| && Width(cs, 3) && Width(ds, 3)
    ensures Digits(Packed(cs)) && Digits(Packed(ds))
    ensures Value(Packed(cs)) < Value(Packed(ds)) <==> Less(Numbers(cs), Numbers(ds))
    ensures Value(Packed(cs)) == Value(Packed(ds)) <==> Numbers(cs) == Numbers(ds)
  {
    PackedIsWeighted(cs);
    PackedIsWeighted(ds);
    NumbersBelow(cs);
    NumbersBelow(ds);
    WeighOrders(Numbers(cs), Numbers(ds));
  }

  /** The number of a packed version. */
  function Number(cs: seq<string>): nat
    requires AllDigits(cs)
  {
    PackedIsDigits(cs);
    Value(Packed(cs))
  }

  lemma {:induction false} PackedIsDigits(cs: seq<string>)
    requires AllDigits(cs)
    ensures Digits(Packed(cs))
  {
    if cs != [] {
      PackedIsDigits(cs[..|cs| - 1]);
    }
  }

  /** Versions with components of this width, of equal length, are told apart by their numbers. */
  ghost predicate TellsApart(w: nat) {
    forall cs, ds :: |cs| == |ds| && Width(cs, w) && Width(ds, w) ==>
      (Number(cs) == Number(ds) ==> Numbers(cs) == Numbers(ds))
  }

  /** And their numbers order as they do. */
  ghost predicate KeepsOrder(w: nat) {
    forall cs, ds :: |cs| == |ds| && Width(cs, w) && Width(ds, w) ==>
      (Number(cs) < Number(ds) <==> Less(Numbers(cs), Numbers(ds)))
  }

  lemma PackedPair(c: string, d: string)
    ensures Packed([c, d]) == Pad(c) + Pad(d)
  {
    assert [c, d][..1] == [c] && [c][..0] == [];
    assert Packed([c]) == "" + Pad(c) == Pad(c);
  }

  /** A fourth digit spills into the component before it: different versions of equal length get one number. */
  lemma FourDigitsCollide()
    ensures var cs, ds := ["10", "1000"], ["101", "000"];
      && Width(cs, 4) && Width(ds, 4) && Number(cs) == Number(ds)
      && Numbers(cs) != Numbers(ds) && Less(Numbers(cs), Numbers(ds))
  {
    var cs, ds := ["10", "1000"], ["101", "000"];
    PackedPair("10", "1000");
    PackedPair("101", "000");
    assert Pad("10") + Pad("1000") == "0" + "101000" && Pad("101") + Pad("000") == "101000";
    LeadingZero("101000");
    TenAndMore();
    LessAtFirstDifference(Numbers(cs), Numbers(ds), 0);
  }

  lemma TenAndMore()
    ensures Value("10") == 10 && Value("101") == 101
  {
    assert "101"[..2] == "10" && "10"[..1] == "1" && "1"[..0] == "";
    assert Value("1") == 1;
  }

  /** The packing is injective, and keeps the order, exactly when no component after the first is wider than three
      digits. */
  lemma PackingOrdersIff(w: nat)
    ensures TellsApart(w) <==> w <= 3
    ensures KeepsOrder(w) <==> w <= 3
  {
    if w <= 3 {
      forall cs, ds | |cs| == |ds| && Width(cs, w) && Width(ds, w)
        ensures Number(cs) == Number(ds) <==> Numbers(cs) == Numbers(ds)
        ensures Number(cs) < Number(ds) <==> Less(Numbers(cs), Numbers(ds))
      {
        PackingOrders(cs, ds);
      }
    } else {
      FourDigitsCollide();
      var cs, ds := ["10", "1000"], ["101", "000"];
      assert Width(cs, w) && Width(ds, w);
    }
  }

  function Pow1000(n: nat): (p: nat)
    ensures p > 0
  {
    if n == 0 then 1 else 1000 * Pow1000(n - 1)
  }

  /** The number without its last k base-1000 digits. */
  function Shifted(x: nat, k: nat): nat {
    if k == 0 then x else Shifted(x, k - 1) / 1000
  }

  /** Dropping k digits is dividing by the k-th power of 1000. */
  lemma {:induction false} ShiftedIsQuotient(x: nat, k: nat)
    ensures Shifted(x, k) == x / Pow1000(k)
  {
    if k > 0 {
      ShiftedIsQuotient(x, k - 1);
      DivideTwice(x, Pow1000(k - 1));
    }
  }

  lemma {:induction false} ShiftDropsDigits(ns: seq<nat>, k: nat)
    requires TailBelow(ns) && k < |ns|
    ensures Shifted(Weigh(ns), k) == Weigh(ns[..|ns| - k])
    decreases k
  {
    if k == 0 {
      assert ns[..|ns|] == ns;
    } else {
      ShiftDropsDigits(ns, k - 1);
      var left := ns[..|ns| - (k - 1)];
      assert left[..|left| - 1] == ns[..|ns| - k];
      assert left[|left| - 1] < 1000;
    }
  }

  lemma Regroup(a: nat, p: nat, t: nat)
    ensures a * (1000 * p + t) == (1000 * a) * p + a * t
  {
  }

  lemma DivideTwice(x: nat, a: nat)
    requires a > 0
    ensures x / (1000 * a) == (x / a) / 1000
  {
    var q, r := x / a, x % a;
    var p, t := q / 1000, q % 1000;
    Regroup(a, p, t);
    MultiplyOrders(t, 1000, a);
    QuotientIs(x, 1000 * a, p, a * t + r);
  }

  lemma MultiplyOrders(m: nat, n: nat, d: nat)
    requires m < n
    ensures d * m + d <= d * n
  {
    assert d * (m + 1) <= d * n;
  }

  lemma QuotientIs(x: nat, d: nat, q: nat, r: nat)
    requires r < d && x == d * q + r
    ensures x / d == q
  {
    var p := x / d;
    if p < q {
      MultiplyOrders(p, q, d);
    } else if q < p {
      MultiplyOrders(q, p, d);
    }
  }

  lemma LastOfPrefix(ns: seq<nat>, i: nat)
    requires TailBelow(ns) && i < |ns|
    ensures if i == 0 then Weigh(ns[..1]) == ns[0] else Weigh(ns[..i + 1]) % 1000 == ns[i]
  {
    assert ns[..i + 1][..i] == ns[..i];
  }

  /** Component i of n, read off the number. */
  function ReadBack(x: nat, n: nat, i: nat): nat
    requires i < n
  {
    if i == 0 then Shifted(x, n - 1) else Shifted(x, n - 1 - i) % 1000
  }

  lemma DigitRecovered(ns: seq<nat>, i: nat)
    requires TailBelow(ns) && i < |ns|
    ensures ReadBack(Weigh(ns), |ns|, i) == ns[i]
  {
    ShiftDropsDigits(ns, |ns| - 1 - i);
    LastOfPrefix(ns, i);
  }

  lemma NumberIsWeight(cs: seq<string>)
    requires Width(cs, 3)
    ensures Number(cs) == Weigh(Numbers(cs))
  {
    PackedIsWeighted(cs);
  }

  /** Each component can be read back from the number: the first by one division, the others by a remainder too. */
  lemma ComponentRecovered(cs: seq<string>, i: nat)
    requires Width(cs, 3) && i < |cs|
    ensures ReadBack(Number(cs), |cs|, i) == Value(cs[i])
  {
    NumberIsWeight(cs);
    NumbersBelow(cs);
    DigitRecovered(Numbers(cs), i);
    assert Numbers(cs)[i] == Value(cs[i]);
  }

  lemma {:induction false} WeighBound(ns: seq<nat>)
    requires TailBelow(ns) && (ns != [] ==> ns[0] < 1000)
    ensures Weigh(ns) < Pow1000(|ns|)
  {
    if |ns| == 1 {
      assert Weigh(ns[..0]) == 0;
    } else if ns != [] {
      WeighBound(ns[..|ns| - 1]);
    }
  }

  lemma SmallPowers(n: nat)
    requires n <= 5
    ensures Pow1000(n) <= 1000_000_000_000_000
  {
    assert Pow1000(0) == 1 && Pow1000(1) == 1000;
    assert Pow1000(2) == 1000_000;
    assert Pow1000(3) == 1000_000_000;
    assert Pow1000(4) == 1000_000_000_000;
    assert Pow1000(5) == 1000_000_000_000_000;
  }

  /** Up to five components of at most three digits, the number is below 2^53, so a 64-bit float holds it exactly. */
  lemma ExactAsFloat(cs: seq<string>)
    requires Width(cs, 3) && |cs| <= 5 && (cs != [] ==> |cs[0]| <= 3)
    ensures Number(cs) < 0x20_0000_0000_0000
  {
    PackedIsWeighted(cs);
    NumbersBelow(cs);
    if cs != [] {
      PadKeepsValue(cs[0]);
      ValueConcat3("", Pad(cs[0]));
      assert "" + Pad(cs[0]) == Pad(cs[0]);
    }
    WeighBound(Numbers(cs));
    SmallPowers(|cs|);
  }
}
