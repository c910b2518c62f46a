/** Metric descriptors and values, and the text that serves as their key in both metric maps. */
module Metrics {
  import opened Results
  import opened Text

  datatype Desc = Desc(fqName: string, sempV2field: string, variableLabels: seq<string>)

  datatype ValueType = CounterValue | GaugeValue

  datatype RawMetric = RawMetric(
    desc: Desc, valueType: ValueType, value: real, labelValues: seq<string>, deprecated: bool)

  /** Every metric has one value per label: `NewMetric` panics otherwise. */
  type Metric = m: RawMetric | |m.labelValues| == |m.desc.variableLabels|
    witness RawMetric(Desc("", "", []), GaugeValue, 0.0, [], false)

  /** What a scrape shows of a metric: everything but the mark. */
  datatype Sample = Sample(desc: Desc, valueType: ValueType, value: real, labelValues: seq<string>)

  function Expose(m: Metric): Sample {
    Sample(m.desc, m.valueType, m.value, m.labelValues)
  }

  /** The sample tells the metric's own descriptor, type, value and label values. */
  predicate Shows(s: Sample, m: Metric) {
    && s.desc == m.desc
    && s.valueType == m.valueType
    && s.value == m.value
    && s.labelValues == m.labelValues
  }

  /** `None` is the panic on a wrong label count or a label value that is not UTF-8, as judged by `utf8`. */
  function NewMetric(utf8: string -> bool, desc: Desc, valueType: ValueType, value: real, labelValues: seq<string>)
    : (r: Option<Metric>)
  {
    if |labelValues| != |desc.variableLabels| then None
    else if exists v :: v in labelValues && !utf8(v) then None
    else Some(RawMetric(desc, valueType, value, labelValues, false))
  }

  function LabelText(name: string, value: string): string {
    name + "=\"" + value + "\""
  }

  function LabelTexts(labels: seq<string>, values: seq<string>): seq<string>
    requires |labels| == |values|
  {
    seq(|labels|, i requires 0 <= i < |labels| => LabelText(labels[i], values[i]))
  }

  function Name(m: Metric): string {
    if |m.desc.variableLabels| < 1 then m.desc.fqName
    else m.desc.fqName + "{" + Join(LabelTexts(m.desc.variableLabels, m.labelValues), ",") + "}"
  }

  /** The loop of the source, filling an array with one text per label. */
  method ComputeName(m: Metric) returns (name: string)
    ensures name == Name(m)
  {
    var n := |m.desc.variableLabels|;
    if n < 1 {
      return m.desc.fqName;
    }
    var labelStrings := new string[n];
    for index := 0 to n
      invariant forall i :: 0 <= i < index ==> labelStrings[i] == LabelText(m.desc.variableLabels[i], m.labelValues[i])
    {
      labelStrings[index] := m.desc.variableLabels[index] + "=\"" + m.labelValues[index] + "\"";
    }
    assert labelStrings[..] == LabelTexts(m.desc.variableLabels, m.labelValues);
    return m.desc.fqName + "{" + Join(labelStrings[..], ",") + "}";
  }

  /** Descriptor texts that cannot be confused with the punctuation around them. */
  predicate PlainDesc(d: Desc) {
    Free(d.fqName, '{') && EqualsFree(d.variableLabels)
  }

  predicate EqualsFree(labels: seq<string>) {
    forall l :: l in labels ==> Free(l, '=')
  }

  predicate QuoteFree(values: seq<string>) {
    forall v :: v in values ==> Free(v, '"')
  }

  predicate SameSeries(m: Metric, n: Metric) {
    m.desc.fqName == n.desc.fqName && m.desc.variableLabels == n.desc.variableLabels && m.labelValues == n.labelValues
  }

  function LabelList(labels: seq<string>, values: seq<string>): string
    requires |labels| == |values|
  {
    Join(LabelTexts(labels, values), ",")
  }

  /** The list text after its first label text: empty, or a comma and the list of the rest. */
  function Rest(labels: seq<string>, values: seq<string>): string
    requires |labels| == |values| >= 1
  {
    if |labels| == 1 then "" else "," + LabelList(labels[1..], values[1..])
  }

  function AfterQuote(labels: seq<string>, values: seq<string>): string
    requires |labels| == |values| >= 1
  {
    values[0] + "\"" + Rest(labels, values)
  }

  lemma Assoc(a: string, b: string, c: string)
    ensures (a + b) + c == a + (b + c)
  {
  }

  lemma LabelListUnfold(labels: seq<string>, values: seq<string>)
    requires |labels| == |values| >= 1
    ensures LabelList(labels, values) == labels[0] + "=" + ("\"" + AfterQuote(labels, values))
  {
    assert LabelTexts(labels, values)[1..] == LabelTexts(labels[1..], values[1..]);
    var l, v, r := labels[0], values[0], Rest(labels, values);
    assert LabelList(labels, values) == LabelText(l, v) + r;
    assert l + "=\"" + v + "\"" + r == l + "=" + ("\"" + (v + "\"" + r));
  }

  /** A label text's two delimiters split it off the rest. */
  lemma LabelTextInjective(l: string, v: string, r: string, l': string, v': string, r': string)
    requires Free(l, '=') && Free(l', '=') && Free(v, '"') && Free(v', '"')
    requires l + "=" + ("\"" + (v + "\"" + r)) == l' + "=" + ("\"" + (v' + "\"" + r'))
    ensures l == l' && v == v' && r == r'
  {
    FirstOccurrence(l, "\"" + (v + "\"" + r), l', "\"" + (v' + "\"" + r'), '=');
    CancelPrefix("\"", v + "\"" + r, v' + "\"" + r');
    FirstOccurrence(v, r, v', r', '"');
  }

  lemma RestInjective(ls: seq<string>, vs: seq<string>, ls': seq<string>, vs': seq<string>)
    requires |ls| == |vs| >= 1 && |ls'| == |vs'| >= 1
    requires Rest(ls, vs) == Rest(ls', vs')
    ensures |ls| == 1 <==> |ls'| == 1
    ensures |ls| > 1 ==> LabelList(ls[1..], vs[1..]) == LabelList(ls'[1..], vs'[1..])
  {
    if |ls| > 1 {
      CancelPrefix(",", LabelList(ls[1..], vs[1..]), LabelList(ls'[1..], vs'[1..]));
    }
  }

  lemma HeadAndTail(a: seq<string>, b: seq<string>)
    requires |a| >= 1 && |b| >= 1 && a[0] == b[0] && a[1..] == b[1..]
    ensures a == b
  {
    assert a == [a[0]] + a[1..] && b == [b[0]] + b[1..];
  }

  /** A list text can be read back when labels hold no `=` and values no quote. */
  lemma {:induction false} LabelListInjective(ls: seq<string>, vs: seq<string>, ls': seq<string>, vs': seq<string>)
    requires |ls| == |vs| >= 1 && |ls'| == |vs'| >= 1
    requires EqualsFree(ls) && EqualsFree(ls')
    requires QuoteFree(vs) && QuoteFree(vs')
    requires LabelList(ls, vs) == LabelList(ls', vs')
    ensures ls == ls' && vs == vs'
    decreases |ls|
  {
    LabelListUnfold(ls, vs);
    LabelListUnfold(ls', vs');
    LabelTextInjective(ls[0], vs[0], Rest(ls, vs), ls'[0], vs'[0], Rest(ls', vs'));
    RestInjective(ls, vs, ls', vs');
    assert ls[1..] == ls'[1..] && vs[1..] == vs'[1..] by {
      if |ls| > 1 {
        LabelListInjective(ls[1..], vs[1..], ls'[1..], vs'[1..]);
      }
    }
    HeadAndTail(ls, ls');
    HeadAndTail(vs, vs');
  }

  /** Two metrics share a map key exactly when they are the same series, for quote-free label values. */
  lemma NameInjective(m: Metric, n: Metric)
    requires PlainDesc(m.desc) && PlainDesc(n.desc)
    requires QuoteFree(m.labelValues) && QuoteFree(n.labelValues)
    ensures Name(m) == Name(n) <==> SameSeries(m, n)
  {
    var ls, ls' := m.desc.variableLabels, n.desc.variableLabels;
    if Name(m) == Name(n) {
      assert |ls| >= 1 ==> Name(m)[|m.desc.fqName|] == '{';
      assert |ls'| >= 1 ==> Name(n)[|n.desc.fqName|] == '{';
      if |ls| >= 1 {
        var b, b' := LabelList(ls, m.labelValues) + "}", LabelList(ls', n.labelValues) + "}";
        assert Name(m) == m.desc.fqName + "{" + b && Name(n) == n.desc.fqName + "{" + b';
        FirstOccurrence(m.desc.fqName, b, n.desc.fqName, b', '{');
        assert b[..|b| - 1] == LabelList(ls, m.labelValues) && b'[..|b'| - 1] == LabelList(ls', n.labelValues);
        LabelListInjective(ls, m.labelValues, ls', n.labelValues);
      }
    }
  }

  function Gauge(d: Desc, values: seq<string>): Metric
    requires |values| == |d.variableLabels|
  {
    RawMetric(d, GaugeValue, 0.0, values, false)
  }

  /** The key tells any two label-value lists of this descriptor apart. */
  ghost predicate KeyIdentifies(d: Desc) {
    forall vs, ws ::
      |vs| == |ws| == |d.variableLabels| && Name(Gauge(d, vs)) == Name(Gauge(d, ws)) ==> vs == ws
  }

  /** Label values are not escaped, so over all values the key identifies a series exactly when there is at most one
      label. */
  lemma KeyIdentifiesIffOneLabel(d: Desc)
    ensures KeyIdentifies(d) <==> |d.variableLabels| <= 1
  {
    var ls := d.variableLabels;
    if |ls| <= 1 {
      forall vs, ws | |vs| == |ws| == |ls| && Name(Gauge(d, vs)) == Name(Gauge(d, ws))
        ensures vs == ws
      {
        if |ls| == 1 {
          OneLabelInjective(d, vs, ws);
        }
      }
    } else {
      var rest := seq(|ls| - 2, _ => "");
      var b := Between(ls[1]);
      var vs, ws := ["1" + b + "2", "3"] + rest, ["1", "2" + b + "3"] + rest;
      QuoteShift(ls, rest, "1", "2", "3");
      assert Name(Gauge(d, vs)) == Name(Gauge(d, ws));
      assert |vs[0]| > |ws[0]|;
    }
  }

  lemma OneLabelInjective(d: Desc, vs: seq<string>, ws: seq<string>)
    requires |vs| == |ws| == |d.variableLabels| == 1
    requires Name(Gauge(d, vs)) == Name(Gauge(d, ws))
    ensures vs == ws
  {
    var head := d.fqName + "{" + (d.variableLabels[0] + "=\"");
    OneLabelName(d, vs);
    OneLabelName(d, ws);
    assert (head + vs[0] + "\"}")[|head|..|head| + |vs[0]|] == vs[0];
    assert (head + ws[0] + "\"}")[|head|..|head| + |ws[0]|] == ws[0];
  }

  lemma OneLabelName(d: Desc, vs: seq<string>)
    requires |vs| == |d.variableLabels| == 1
    ensures Name(Gauge(d, vs)) == d.fqName + "{" + (d.variableLabels[0] + "=\"") + vs[0] + "\"}"
  {
    assert LabelTexts(d.variableLabels, vs) == [LabelText(d.variableLabels[0], vs[0])];
  }

  /** The text between two values of neighbouring labels. */
  function Between(nextLabel: string): string {
    "\"," + nextLabel + "=\""
  }

  lemma AfterQuoteUnfold(ls: seq<string>, vs: seq<string>)
    requires |ls| == |vs| >= 2
    ensures AfterQuote(ls, vs) == vs[0] + (Between(ls[1]) + AfterQuote(ls[1..], vs[1..]))
  {
    LabelListUnfold(ls[1..], vs[1..]);
    var after := AfterQuote(ls[1..], vs[1..]);
    assert "\"" + ("," + (ls[1] + "=" + ("\"" + after))) == Between(ls[1]) + after;
    Assoc(vs[0], "\"", Rest(ls, vs));
  }

  lemma Reassociate(x: string, b: string, y: string, z: string, t: string)
    ensures (x + b + y) + (b + (z + t)) == x + (b + ((y + b + z) + t))
  {
    Assoc(x + b, y, b + (z + t));
    Assoc(x, b, y + (b + (z + t)));
    Assoc(y + b, z, t);
    Assoc(y, b, z + t);
  }

  /** A quote inside a value can pose as the end of that value, so a piece of text may sit in either of two labels. */
  lemma QuoteShift(ls: seq<string>, rest: seq<string>, x: string, y: string, z: string)
    requires |ls| == |rest| + 2
    ensures LabelList(ls, [x + Between(ls[1]) + y, z] + rest) == LabelList(ls, [x, y + Between(ls[1]) + z] + rest)
  {
    var b := Between(ls[1]);
    var vs, ws := [x + b + y, z] + rest, [x, y + b + z] + rest;
    assert vs[1..] == [z] + rest && ws[1..] == [y + b + z] + rest;
    assert vs[1..][1..] == rest == ws[1..][1..];
    var tail := "\"" + Rest(ls[1..], vs[1..]);
    AfterQuoteUnfold(ls, vs);
    AfterQuoteUnfold(ls, ws);
    Assoc(z, "\"", Rest(ls[1..], vs[1..]));
    Assoc(y + b + z, "\"", Rest(ls[1..], vs[1..]));
    assert AfterQuote(ls[1..], vs[1..]) == z + tail;
    assert AfterQuote(ls[1..], ws[1..]) == (y + b + z) + tail;
    Reassociate(x, b, y, z, tail);
    LabelListUnfold(ls, vs);
    LabelListUnfold(ls, ws);
  }
}
