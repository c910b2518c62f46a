/** Data sources as text: the printer, the request parser and the configuration-file parser. */
module DataSources {
  import opened Results
  import opened Text

  datatype DataSource = DataSource(name: string, vpnFilter: string, itemFilter: string, metricFilter: seq<string>)
  {
    /** The value part of the printed form. */
    function Value(): string {
      vpnFilter + "|" + itemFilter + "|" + Join(metricFilter, ",")
    }

    /** `String`. */
    function Show(): string {
      name + "=" + Value()
    }
  }

  /** How both parsers read a value; `None` where they refuse it. */
  function ParseValue(name: string, value: string): Option<DataSource> {
    var parts := Split(value, '|');
    if |parts| < 2 then None
    else
      var metricFilter := if |parts| == 3 && !Blank(parts[2]) then Split(parts[2], ',') else [];
      Some(DataSource(name, parts[0], parts[1], metricFilter))
  }

  /** A value is accepted exactly when it has a bar in it. */
  lemma AcceptedIffBar(name: string, value: string)
    ensures ParseValue(name, value).Some? <==> !Free(value, '|')
  {
    JoinSplit(value, '|');
    if |Split(value, '|')| == 1 {
      assert Split(value, '|')[0] in Split(value, '|');
    } else if Free(value, '|') {
      SplitAfterField(value, "", '|');
    }
  }

  /** What a value says: two filters, and a list of metrics where there is a third part, no fourth, and more than blanks
      in the third. */
  lemma ParsesAs(name: string, vpn: string, item: string, rest: string)
    requires Free(vpn, '|') && Free(item, '|')
    ensures ParseValue(name, vpn + "|" + item) == Some(DataSource(name, vpn, item, []))
    ensures ParseValue(name, vpn + "|" + item + "|" + rest) ==
      Some(DataSource(name, vpn, item, if Free(rest, '|') && !Blank(rest) then Split(rest, ',') else []))
  {
    FirstTwoParts(vpn, item, rest);
    AcceptedIffBar(name, rest);
    if Free(rest, '|') {
      SplitAfterField(rest, "", '|');
    }
  }

  lemma FirstPart(a: string, rest: string)
    requires Free(a, '|')
    ensures Split(a + "|" + rest, '|') == [a] + Split(rest, '|')
  {
    SplitAfterField(a, rest, '|');
    assert a + "|" + rest == a + ['|'] + rest;
  }

  lemma BarsAssociate(a: string, b: string, c: string)
    ensures a + "|" + b + "|" + c == a + "|" + (b + "|" + c)
  {
  }

  lemma FirstTwoParts(vpn: string, item: string, rest: string)
    requires Free(vpn, '|') && Free(item, '|')
    ensures Split(vpn + "|" + item, '|') == [vpn, item]
    ensures Split(vpn + "|" + item + "|" + rest, '|') == [vpn, item] + Split(rest, '|')
  {
    SplitAfterField(item, "", '|');
    FirstPart(vpn, item);
    FirstPart(item, rest);
    FirstPart(vpn, item + "|" + rest);
    BarsAssociate(vpn, item, rest);
  }

  predicate ItemsFree(items: seq<string>, c: char) {
    forall i :: 0 <= i < |items| ==> Free(items[i], c)
  }

  /** What the printed form can carry. */
  predicate Printable(ds: DataSource) {
    && Free(ds.vpnFilter, '|')
    && Free(ds.itemFilter, '|')
    && (ds.metricFilter == [] ||
        (ItemsFree(ds.metricFilter, '|') && ItemsFree(ds.metricFilter, ',') && !Blank(Join(ds.metricFilter, ","))))
  }

  lemma {:induction false} JoinFree(items: seq<string>, c: char)
    requires c != ','
    ensures Free(Join(items, ","), c) <==> ItemsFree(items, c)
  {
    if |items| > 1 {
      JoinFree(items[1..], c);
      assert forall i :: 1 <= i < |items| ==> items[i] == items[1..][i - 1];
    }
  }

  lemma ThreeParts(a: string, b: string, c: string)
    requires Free(a, '|') && Free(b, '|') && Free(c, '|')
    ensures Split(a + "|" + b + "|" + c, '|') == [a, b, c]
  {
    FirstTwoParts(a, b, c);
    SplitAfterField(c, "", '|');
  }

  /** Parsing what was printed gives the data source back exactly when it is printable. */
  lemma RoundTripIff(ds: DataSource)
    ensures ParseValue(ds.name, ds.Value()) == Some(ds) <==> Printable(ds)
  {
    if Printable(ds) {
      PrintableRoundTrips(ds);
    }
    if ParseValue(ds.name, ds.Value()) == Some(ds) {
      ParsedIsPrintable(ds, ds.Value());
    }
  }

  lemma PrintableRoundTrips(ds: DataSource)
    requires Printable(ds)
    ensures ParseValue(ds.name, ds.Value()) == Some(ds)
  {
    JoinFree(ds.metricFilter, '|');
    ThreeParts(ds.vpnFilter, ds.itemFilter, Join(ds.metricFilter, ","));
    if ds.metricFilter != [] {
      SplitJoin(ds.metricFilter, ',');
    }
  }

  /** Whatever is parsed is printable. */
  lemma ParsedIsPrintable(ds: DataSource, value: string)
    requires ParseValue(ds.name, value) == Some(ds)
    ensures Printable(ds)
  {
    var parts := Split(value, '|');
    JoinSplit(value, '|');
    assert parts[0] in parts && parts[1] in parts;
    if ds.metricFilter != [] {
      assert parts[2] in parts;
      JoinSplit(parts[2], ',');
      JoinFree(ds.metricFilter, '|');
      assert forall i :: 0 <= i < |ds.metricFilter| ==> ds.metricFilter[i] in ds.metricFilter;
    }
  }

  /** The printed form shows where the name ends exactly when the name holds no equals sign. */
  lemma ShownNameEndsIff(ds: DataSource)
    ensures Cut(ds.Show(), '=') == Some((ds.name, ds.Value())) <==> Free(ds.name, '=')
  {
    CutSpec(ds.Show(), '=', ds.name, ds.Value());
  }

  /** So printing what was parsed and parsing it again changes nothing more. */
  lemma ReparseIsStable(name: string, value: string)
    requires ParseValue(name, value).Some?
    ensures ParseValue(name, ParseValue(name, value).value.Value()) == ParseValue(name, value)
  {
    var ds := ParseValue(name, value).value;
    ParsedIsPrintable(ds, value);
    PrintableRoundTrips(ds);
  }

  /* ---------- the request form ---------- */

  /** How many of the values have a bar. */
  function Barred(values: seq<string>): nat {
    if values == [] then 0
    else Barred(values[..|values| - 1]) + (if Free(values[|values| - 1], '|') then 0 else 1)
  }

  /** Every place is that of some value with a bar. */
  lemma {:induction false} PlaceIsTaken(values: seq<string>, p: nat) returns (i: nat)
    requires p < Barred(values)
    ensures i < |values| && !Free(values[i], '|') && Barred(values[..i]) == p
  {
    var n := |values| - 1;
    if p < Barred(values[..n]) {
      i := PlaceIsTaken(values[..n], p);
      assert values[..n][..i] == values[..i];
    } else {
      i := n;
    }
  }

  /** The list holds the data source of every value with a bar, at the place given by the number of such values before
      it, and no more than these. */
  ghost predicate HoldsAccepted(name: string, values: seq<string>, sources: seq<DataSource>) {
    && |sources| == Barred(values)
    && (forall i :: 0 <= i < |values| && !Free(values[i], '|') ==> HoldsAt(name, values, i, sources))
  }

  ghost predicate HoldsAt(name: string, values: seq<string>, i: nat, sources: seq<DataSource>)
    requires i < |values|
  {
    var p := Barred(values[..i]);
    p < |sources| && ParseValue(name, values[i]) == Some(sources[p])
  }

  lemma HoldsOneMore(name: string, values: seq<string>, value: string, sources: seq<DataSource>)
    requires HoldsAccepted(name, values, sources)
    requires ParseValue(name, value).Some? <==> !Free(value, '|')
    ensures var ds := ParseValue(name, value);
      HoldsAccepted(name, values + [value], if ds.None? then sources else sources + [ds.value])
  {
    var all := values + [value];
    var ds := ParseValue(name, value);
    var more := if ds.None? then sources else sources + [ds.value];
    assert all[..|values|] == values;
    forall i | 0 <= i < |all| && !Free(all[i], '|')
      ensures HoldsAt(name, all, i, more)
    {
      if i < |values| {
        assert all[..i] == values[..i] && HoldsAt(name, values, i, sources);
      }
    }
  }

  lemma HoldsNext(name: string, values: seq<string>, i: nat, sources: seq<DataSource>)
    requires i < |values| && HoldsAccepted(name, values[..i], sources)
    ensures var ds := ParseValue(name, values[i]);
      HoldsAccepted(name, values[..i + 1], if ds.None? then sources else sources + [ds.value])
  {
    assert values[..i + 1] == values[..i] + [values[i]];
    AcceptedIffBar(name, values[i]);
    HoldsOneMore(name, values[..i], values[i], sources);
  }

  /** The values of one parameter, as the request parser reads them: nothing is lost, added or moved. */
  method ParseParameter(name: string, values: seq<string>) returns (parsed: seq<DataSource>)
    ensures HoldsAccepted(name, values, parsed)
  {
    parsed := [];
    for i := 0 to |values|
      invariant HoldsAccepted(name, values[..i], parsed)
    {
      HoldsNext(name, values, i, parsed);
      var ds := ParseValue(name, values[i]);
      if ds.None? {
        continue;
      }
      parsed := parsed + [ds.value];
    }
    assert values[..|values|] == values;
  }

  const REQUEST_PREFIX := "m."

  ghost predicate KeysOf(form: map<string, seq<string>>, keys: seq<string>) {
    forall t :: 0 <= t < |keys| ==> keys[t] in form
  }

  /** How many values with a bar the parameters that name a target have. */
  function Total(form: map<string, seq<string>>, keys: seq<string>): nat
    requires KeysOf(form, keys)
  {
    if keys == [] then 0
    else
      var last := keys[|keys| - 1];
      Total(form, keys[..|keys| - 1]) + (if "m." <= last then Barred(form[last]) else 0)
  }

  /** Value number i of parameter number t names a data source. */
  predicate Named(form: map<string, seq<string>>, keys: seq<string>, t: nat, i: nat) {
    && t < |keys| && "m." <= keys[t]
    && keys[t] in form && i < |form[keys[t]]| && !Free(form[keys[t]][i], '|')
  }

  /** Its place is given by the number of those before it; the data source there has the name that follows `m.`. */
  ghost predicate HoldsNamed(
    form: map<string, seq<string>>, keys: seq<string>, t: nat, i: nat, sources: seq<DataSource>)
    requires KeysOf(form, keys) && Named(form, keys, t, i)
  {
    var p := Total(form, keys[..t]) + Barred(form[keys[t]][..i]);
    && p < |sources|
    && keys[t] == "m." + sources[p].name
    && ParseValue(sources[p].name, form[keys[t]][i]) == Some(sources[p])
  }

  /** Every value with a bar, of every parameter that names a target, has its data source at its place, and there are no
      others. */
  ghost predicate HoldsForm(form: map<string, seq<string>>, keys: seq<string>, sources: seq<DataSource>) {
    && KeysOf(form, keys)
    && |sources| == Total(form, keys)
    && (forall t: nat, i: nat :: Named(form, keys, t, i) ==> HoldsNamed(form, keys, t, i, sources))
  }

  /** Every place is that of one of these values. */
  lemma {:induction false} NamedPlaceIsTaken(form: map<string, seq<string>>, keys: seq<string>, p: nat)
    returns (t: nat, i: nat)
    requires KeysOf(form, keys) && p < Total(form, keys)
    ensures Named(form, keys, t, i) && Total(form, keys[..t]) + Barred(form[keys[t]][..i]) == p
  {
    var n := |keys| - 1;
    if p < Total(form, keys[..n]) {
      t, i := NamedPlaceIsTaken(form, keys[..n], p);
      assert keys[..n][..t] == keys[..t];
    } else {
      t := n;
      i := PlaceIsTaken(form[keys[n]], p - Total(form, keys[..n]));
    }
  }

  /** More keys and more data sources leave the earlier ones in their places. */
  lemma HoldsEarlier(
    form: map<string, seq<string>>, keys: seq<string>, more: seq<string>, t: nat, i: nat,
    sources: seq<DataSource>, added: seq<DataSource>)
    requires KeysOf(form, keys) && KeysOf(form, keys + more) && Named(form, keys, t, i)
    requires HoldsNamed(form, keys, t, i, sources)
    ensures Named(form, keys + more, t, i) && HoldsNamed(form, keys + more, t, i, sources + added)
  {
    assert (keys + more)[..t] == keys[..t];
  }

  lemma PrefixComesOff(key: string)
    requires "m." <= key
    ensures key == "m." + key[2..]
  {
  }

  lemma AppendedAt(sources: seq<DataSource>, parsed: seq<DataSource>, p: nat)
    requires p < |parsed|
    ensures (sources + parsed)[|sources| + p] == parsed[p]
  {
  }

  lemma HoldsLast(
    form: map<string, seq<string>>, keys: seq<string>, i: nat, sources: seq<DataSource>, parsed: seq<DataSource>)
    requires KeysOf(form, keys) && keys != [] && Named(form, keys, |keys| - 1, i)
    requires |sources| == Total(form, keys[..|keys| - 1])
    requires HoldsAt(keys[|keys| - 1][2..], form[keys[|keys| - 1]], i, parsed)
    ensures HoldsNamed(form, keys, |keys| - 1, i, sources + parsed)
  {
    var key := keys[|keys| - 1];
    AppendedAt(sources, parsed, Barred(form[key][..i]));
    PrefixComesOff(key);
  }

  lemma HoldsOneMoreKey(
    form: map<string, seq<string>>, keys: seq<string>, key: string, sources: seq<DataSource>, parsed: seq<DataSource>)
    requires HoldsForm(form, keys, sources) && key in form
    requires if "m." <= key then HoldsAccepted(key[2..], form[key], parsed) else parsed == []
    ensures HoldsForm(form, keys + [key], sources + parsed)
  {
    var all := keys + [key];
    assert all[..|keys|] == keys;
    forall t: nat, i: nat | Named(form, all, t, i)
      ensures HoldsNamed(form, all, t, i, sources + parsed)
    {
      if t < |keys| {
        assert Named(form, keys, t, i);
        HoldsEarlier(form, keys, [key], t, i, sources, parsed);
      } else {
        assert HoldsAt(key[2..], form[key], i, parsed);
        HoldsLast(form, all, i, sources, parsed);
      }
    }
  }

  ghost predicate OrderOf(keys: seq<string>, all: set<string>) {
    && (forall i, j :: 0 <= i < j < |keys| ==> keys[i] != keys[j])
    && (forall k :: k in keys <==> k in all)
  }

  /** `parseDataSources`: values without a bar are skipped; parameters come in an order the program does not choose,
      each once, with their values in order. */
  method ParseDataSources(form: map<string, seq<string>>) returns (dataSource: seq<DataSource>)
    ensures exists order :: OrderOf(order, form.Keys) && HoldsForm(form, order, dataSource)
  {
    dataSource := [];
    ghost var order: seq<string> := [];
    var todo := form.Keys;
    while todo != {}
      invariant todo <= form.Keys && OrderOf(order, form.Keys - todo)
      invariant HoldsForm(form, order, dataSource)
      decreases |todo|
    {
      var key :| key in todo;
      var parsed: seq<DataSource> := [];
      if REQUEST_PREFIX <= key {
        parsed := ParseParameter(key[|REQUEST_PREFIX|..], form[key]);
      }
      HoldsOneMoreKey(form, order, key, dataSource, parsed);
      dataSource := dataSource + parsed;
      order := order + [key];
      todo := todo - {key};
    }
  }

  /* ---------- the configuration file ---------- */

  predicate Word(s: string) {
    s != "" && forall i :: 0 <= i < |s| ==>
      'a' <= s[i] <= 'z' || 'A' <= s[i] <= 'Z' || '0' <= s[i] <= '9' || s[i] == '_'
  }

  predicate Number(s: string) {
    s != "" && forall i :: 0 <= i < |s| ==> '0' <= s[i] <= '9'
  }

  /** A key of word characters may end in a dot and a number, so that one target can occur twice; they are dropped. */
  function ScrapeTarget(key: string): string {
    match Cut(key, '.')
    case None => key
    case Some((word, number)) => if Word(word) && Number(number) then word else key
  }

  lemma NumberedTargets(word: string, number: string)
    requires Word(word) && Number(number)
    ensures ScrapeTarget(word + "." + number) == word && ScrapeTarget(word) == word
  {
    CutSpec(word + "." + number, '.', word, number);
    CutSpec(word, '.', "", "");
  }

  /** Every other key is kept as it is. */
  lemma TargetShortenedIff(key: string)
    ensures ScrapeTarget(key) != key <==>
      exists word, number :: Word(word) && Number(number) && key == word + "." + number
  {
    if Cut(key, '.').Some? {
      var p := Cut(key, '.').value;
      CutSpec(key, '.', p.0, p.1);
      assert key == p.0 + "." + p.1;
    }
    if word, number :| Word(word) && Number(number) && key == word + "." + number {
      NumberedTargets(word, number);
      assert |word| < |key|;
    }
  }

  function ParseKey(key: (string, string)): Option<DataSource> {
    ParseValue(ScrapeTarget(key.0), key.1)
  }

  /** The first values of the section, each read for its key. */
  ghost predicate SectionRead(keys: seq<(string, string)>, sources: seq<DataSource>) {
    |sources| <= |keys| && forall i :: 0 <= i < |sources| ==> ParseKey(keys[i]) == Some(sources[i])
  }

  ghost predicate FirstRefused(keys: seq<(string, string)>, i: nat) {
    i < |keys| && ParseKey(keys[i]).None? && forall j :: 0 <= j < i ==> ParseKey(keys[j]).Some?
  }

  lemma ReadOneMore(keys: seq<(string, string)>, sources: seq<DataSource>)
    requires SectionRead(keys, sources) && |sources| < |keys|
    ensures match ParseKey(keys[|sources|])
      case None => FirstRefused(keys, |sources|)
      case Some(ds) => SectionRead(keys, sources + [ds])
  {
  }

  /** The data sources of one endpoint section, or the first value that is refused, which fails the whole
      configuration. */
  method ParseSection(keys: seq<(string, string)>) returns (r: Result<seq<DataSource>, string>)
    ensures r.Ok? ==> |r.value| == |keys| && SectionRead(keys, r.value)
    ensures r.Err? ==> exists i: nat :: FirstRefused(keys, i) && r.error == keys[i].1
  {
    var dataSource: seq<DataSource> := [];
    for i := 0 to |keys|
      invariant |dataSource| == i && SectionRead(keys, dataSource)
    {
      ReadOneMore(keys, dataSource);
      var ds := ParseKey(keys[i]);
      if ds.None? {
        return Err(keys[i].1);
      }
      dataSource := dataSource + [ds.value];
    }
    return Ok(dataSource);
  }
}
