/** SEMP v2 field selection: metric filters given as metric names or raw fields, and the v2 queue getter they steer. */
module FieldSelection {
  import opened Results
  import opened Text
  import opened Metrics
  import opened Paging
  import opened QueueStats

  type Translation = map<string, string>

  predicate Known(item: string, t: Translation) {
    item in t || item in t.Values
  }

  function TranslateItem(item: string, t: Translation): string {
    if item in t then t[item] else item
  }

  function TranslateAll(items: seq<string>, t: Translation): seq<string> {
    seq(|items|, i requires 0 <= i < |items| => TranslateItem(items[i], t))
  }

  predicate AllKnown(items: seq<string>, t: Translation) {
    forall i :: 0 <= i < |items| ==> Known(items[i], t)
  }

  ghost predicate FirstUnknown(items: seq<string>, t: Translation, item: string) {
    exists i :: 0 <= i < |items| && items[i] == item && !Known(item, t) && AllKnown(items[..i], t)
  }

  /** `mapItems`; the error carries the first unknown item. */
  method MapItems(items: seq<string>, translateMap: Translation) returns (r: Result<seq<string>, string>)
    ensures r.Ok? <==> AllKnown(items, translateMap)
    ensures r.Ok? ==> r.value == TranslateAll(items, translateMap)
    ensures r.Err? ==> FirstUnknown(items, translateMap, r.error)
  {
    var validRawItems: map<string, bool> := map[];
    var todo := translateMap.Keys;
    while todo != {}
      invariant todo <= translateMap.Keys
      invariant forall raw :: raw in validRawItems <==>
        exists k :: k in translateMap && k !in todo && translateMap[k] == raw
      decreases |todo|
    {
      var key :| key in todo;
      validRawItems := validRawItems[translateMap[key] := true];
      todo := todo - {key};
    }
    assert forall raw :: raw in validRawItems <==> raw in translateMap.Values;
    var translated: seq<string> := [];
    for i := 0 to |items|
      invariant AllKnown(items[..i], translateMap)
      invariant translated == TranslateAll(items[..i], translateMap)
    {
      var item := items[i];
      if item in translateMap {
        translated := translated + [translateMap[item]];
      } else if item in validRawItems {
        translated := translated + [item];
      } else {
        return Err(item);
      }
    }
    assert items[..|items|] == items;
    return Ok(translated);
  }

  /** Translating what has been translated changes nothing, for every acceptable list, exactly when a raw field that is
      also a metric name stands for itself. */
  lemma TranslatingTwiceIff(t: Translation)
    ensures (forall items :: AllKnown(items, t) ==> TranslateAll(TranslateAll(items, t), t) == TranslateAll(items, t))
       <==> (forall k :: k in t && t[k] in t ==> t[t[k]] == t[k])
  {
    if forall k :: k in t && t[k] in t ==> t[t[k]] == t[k] {
      forall items | AllKnown(items, t)
        ensures TranslateAll(TranslateAll(items, t), t) == TranslateAll(items, t)
      {
        assert forall i :: 0 <= i < |items| ==>
          TranslateItem(TranslateItem(items[i], t), t) == TranslateItem(items[i], t);
      }
    } else {
      var k :| k in t && t[k] in t && t[t[k]] != t[k];
      assert AllKnown([k], t);
      assert TranslateAll([k], t) == [t[k]];
      assert TranslateAll([t[k]], t)[0] == t[t[k]];
    }
  }

  type Descriptions = map<Stat, Desc>

  const QUEUE_STATS: Descriptions := map s: Stat :: DescOf(s)

  ghost predicate DistinctNames(ds: Descriptions) {
    forall a, b :: a in ds && b in ds && ds[a].fqName == ds[b].fqName ==> a == b
  }

  function FieldsByName(ds: Descriptions): Translation
    requires DistinctNames(ds)
  {
    map a | a in ds :: ds[a].fqName := ds[a].sempV2field
  }

  predicate Describes(d: Desc, name: string, field: string) {
    d.fqName == name && d.sempV2field == field
  }

  /** The map has every description's name and no other, each with the field of a description of that name. */
  ghost predicate IsFieldMap(ds: Descriptions, t: Translation) {
    && (forall a :: a in ds ==> ds[a].fqName in t)
    && (forall f :: f in t ==> exists a :: a in ds && Describes(ds[a], f, t[f]))
  }

  /** When their names differ, the order in which the descriptions are visited does not show. */
  lemma FieldMapIsUnique(ds: Descriptions, t: Translation)
    requires DistinctNames(ds) && IsFieldMap(ds, t)
    ensures t == FieldsByName(ds)
  {
    var u := FieldsByName(ds);
    forall f
      ensures f in t <==> f in u
      ensures f in t ==> t[f] == u[f]
    {
      if f in t {
        var a :| a in ds && Describes(ds[a], f, t[f]);
      }
    }
  }

  method GetSempV2FieldMapList(ds: Descriptions) returns (mapList: Translation)
    ensures IsFieldMap(ds, mapList)
  {
    mapList := map[];
    var todo := ds.Keys;
    while todo != {}
      invariant todo <= ds.Keys
      invariant forall a :: a in ds && a !in todo ==> ds[a].fqName in mapList
      invariant forall f :: f in mapList ==> exists a :: a in ds && Describes(ds[a], f, mapList[f])
      decreases |todo|
    {
      var key :| key in todo;
      mapList := mapList[ds[key].fqName := ds[key].sempV2field];
      assert Describes(ds[key], ds[key].fqName, ds[key].sempV2field);
      todo := todo - {key};
    }
  }

  const MANDATORY: seq<string> := ["queueName", "msgVpnName"]

  function AddMissing(fields: seq<string>, mandatory: seq<string>): seq<string>
    decreases |mandatory|
  {
    if mandatory == [] then fields
    else AddMissing(if mandatory[0] in fields then fields else fields + [mandatory[0]], mandatory[1..])
  }

  lemma {:induction false} AddMissingHas(fields: seq<string>, mandatory: seq<string>, f: string)
    ensures f in AddMissing(fields, mandatory) <==> f in fields || f in mandatory
    decreases |mandatory|
  {
    if mandatory != [] {
      AddMissingHas(if mandatory[0] in fields then fields else fields + [mandatory[0]], mandatory[1..], f);
    }
  }

  /** Every mandatory field and every field the filter stands for is selected, and nothing else; or the first unknown
      item of the filter is reported. */
  ghost predicate SelectsFields(
    metricFilter: seq<string>, mandatoryFields: seq<string>, t: Translation, r: Result<seq<string>, string>)
  {
    match r
    case Ok(fields) =>
      && AllKnown(metricFilter, t)
      && fields == AddMissing(TranslateAll(metricFilter, t), mandatoryFields)
      && forall f :: f in fields <==> f in TranslateAll(metricFilter, t) || f in mandatoryFields
    case Err(item) => FirstUnknown(metricFilter, t, item)
  }

  /** The field map may be any that an iteration order can give. */
  method GetSempV2FieldsToSelect(metricFilter: seq<string>, mandatoryFields: seq<string>, ds: Descriptions)
    returns (r: Result<seq<string>, string>)
    ensures exists t :: IsFieldMap(ds, t) && SelectsFields(metricFilter, mandatoryFields, t, r)
  {
    var mapList := GetSempV2FieldMapList(ds);
    var translated := MapItems(metricFilter, mapList);
    if translated.Err? {
      return Err(translated.error);
    }
    var fields := translated.value;
    for i := 0 to |mandatoryFields|
      invariant AddMissing(fields, mandatoryFields[i..]) == AddMissing(translated.value, mandatoryFields)
    {
      var field := mandatoryFields[i];
      if field !in fields {
        fields := fields + [field];
      }
    }
    forall f
      ensures f in fields <==> f in translated.value || f in mandatoryFields
    {
      AddMissingHas(translated.value, mandatoryFields, f);
    }
    return Ok(fields);
  }

  /** For distinct names no iteration order shows in the selection. */
  lemma SelectionIsUnique(
    metricFilter: seq<string>, mandatoryFields: seq<string>, ds: Descriptions, r: Result<seq<string>, string>)
    requires DistinctNames(ds)
    requires exists t :: IsFieldMap(ds, t) && SelectsFields(metricFilter, mandatoryFields, t, r)
    ensures SelectsFields(metricFilter, mandatoryFields, FieldsByName(ds), r)
  {
    var t :| IsFieldMap(ds, t) && SelectsFields(metricFilter, mandatoryFields, t, r);
    FieldMapIsUnique(ds, t);
  }

  /** The rows of the v2 getter: all but the count of spooled messages. */
  const V2_STATS: seq<Stat> := [
    BytesSpooled, Redelivered, Retransmitted, SpoolUsageExceeded, MsgSizeExceeded, Deleted, ShutdownDiscarded,
    TtlDiscarded, TtlDmq, TtlDmqFailed, MaxRedeliveredDiscarded, MaxRedeliveredDmq, MaxRedeliveredDmqFailed]

  predicate IsSelected(stat: Stat, selectedFields: seq<string>) {
    |selectedFields| < 1 || Field(stat) in selectedFields
  }

  function Selected(stats: seq<Stat>, selectedFields: seq<string>): seq<Stat> {
    if stats == [] then []
    else
      var rest := Selected(stats[..|stats| - 1], selectedFields);
      if IsSelected(stats[|stats| - 1], selectedFields) then rest + [stats[|stats| - 1]] else rest
  }

  lemma {:induction false} SelectedHas(stats: seq<Stat>, selectedFields: seq<string>, stat: Stat)
    ensures stat in Selected(stats, selectedFields) <==> stat in stats && IsSelected(stat, selectedFields)
  {
    if stats != [] {
      var n := |stats| - 1;
      assert stats == stats[..n] + [stats[n]];
      SelectedHas(stats[..n], selectedFields, stat);
    }
  }

  /* ---------- the table ---------- */

  function FieldSignature(stat: Stat): (nat, char) {
    match stat
    case BytesSpooled => (16, 'p')
    case MsgSpooled => (15, 'p')
    case Redelivered => (19, 'e')
    case Retransmitted => (27, 'r')
    case SpoolUsageExceeded => (41, 'a')
    case MsgSizeExceeded => (35, 'a')
    case Deleted => (15, 'e')
    case ShutdownDiscarded => (25, 'i')
    case TtlDiscarded => (30, 'a')
    case TtlDmq => (26, 'a')
    case TtlDmqFailed => (32, 'a')
    case MaxRedeliveredDiscarded => (38, 'a')
    case MaxRedeliveredDmq => (34, 'a')
    case MaxRedeliveredDmqFailed => (40, 'a')
  }

  lemma LateFieldHasSignature(stat: Stat)
    requires IsLate(stat)
    ensures |Field(stat)| >= 2 && FieldSignature(stat) == (|Field(stat)|, Field(stat)[1])
  {
    match stat
    case MsgSizeExceeded =>
    case TtlDiscarded =>
    case TtlDmq =>
    case TtlDmqFailed =>
    case MaxRedeliveredDiscarded =>
    case MaxRedeliveredDmq =>
    case MaxRedeliveredDmqFailed =>
    case _ =>
  }

  lemma EarlyFieldHasSignature(stat: Stat)
    requires !IsLate(stat)
    ensures |Field(stat)| >= 2 && FieldSignature(stat) == (|Field(stat)|, Field(stat)[1])
  {
    match stat
    case BytesSpooled =>
    case MsgSpooled =>
    case Redelivered =>
    case Retransmitted =>
    case SpoolUsageExceeded =>
    case Deleted =>
    case ShutdownDiscarded =>
    case _ =>
  }

  lemma FieldHasSignature(stat: Stat)
    ensures |Field(stat)| >= 2 && FieldSignature(stat) == (|Field(stat)|, Field(stat)[1])
  {
    if IsLate(stat) {
      LateFieldHasSignature(stat);
    } else {
      EarlyFieldHasSignature(stat);
    }
  }

  lemma FieldInjective(a: Stat, b: Stat)
    requires Field(a) == Field(b)
    ensures a == b
  {
    FieldHasSignature(a);
    FieldHasSignature(b);
  }

  /** No statistic's field is another's name or a mandatory field. */
  lemma FieldIsOnlyAField(a: Stat, b: Stat)
    ensures DescOf(a).fqName != Field(b)
    ensures Field(b) !in MANDATORY
  {
    FieldHasSignature(b);
    assert DescOf(a).fqName[1] == 'o';
    assert |"queueName"| == 9 && |"msgVpnName"| == 10;
  }

  lemma TableNamesDistinct()
    ensures DistinctNames(QUEUE_STATS)
  {
    forall a, b | DescOf(a).fqName == DescOf(b).fqName
      ensures a == b
    {
      FqNameInjective(a, b);
    }
  }

  /** A filter item that stands for a statistic: its metric name or its raw field. */
  predicate Spells(item: string, stat: Stat) {
    item == DescOf(stat).fqName || item == Field(stat)
  }

  function TableFields(): Translation {
    TableNamesDistinct();
    FieldsByName(QUEUE_STATS)
  }

  /** The translation accepts nothing but spellings of statistics. */
  lemma KnownIsSpelled(item: string) returns (stat: Stat)
    requires Known(item, TableFields())
    ensures Spells(item, stat)
  {
    var t := TableFields();
    var name := item;
    if item !in t {
      name :| name in t && t[name] == item;
    }
    stat := NameInTable(name);
    RowInTable(stat);
  }

  /** It accepts them all, and either spelling gives the raw field. */
  lemma SpelledIsKnown(item: string, stat: Stat)
    requires Spells(item, stat)
    ensures Known(item, TableFields()) && TranslateItem(item, TableFields()) == Field(stat)
  {
    RowInTable(stat);
  }

  predicate Row(t: Translation, stat: Stat) {
    && DescOf(stat).fqName in t && t[DescOf(stat).fqName] == Field(stat)
    && Field(stat) !in t && Field(stat) in t.Values
  }

  lemma NameInTable(name: string) returns (stat: Stat)
    requires name in TableFields()
    ensures DescOf(stat).fqName == name
  {
    TableNamesDistinct();
    stat :| stat in QUEUE_STATS && QUEUE_STATS[stat].fqName == name;
  }

  lemma RowInTable(stat: Stat)
    ensures Row(TableFields(), stat)
  {
    TableNamesDistinct();
    var t := TableFields();
    assert stat in QUEUE_STATS;
    if Field(stat) in t {
      var b := NameInTable(Field(stat));
      FieldIsOnlyAField(b, stat);
    }
    assert t[DescOf(stat).fqName] in t.Values;
  }

  lemma TranslatesToField(item: string, stat: Stat)
    requires Known(item, TableFields())
    ensures TranslateItem(item, TableFields()) == Field(stat) <==> Spells(item, stat)
  {
    var b := KnownIsSpelled(item);
    SpelledIsKnown(item, b);
    if Spells(item, stat) {
      SpelledIsKnown(item, stat);
    }
    if Field(b) == Field(stat) {
      FieldInjective(b, stat);
    }
  }

  ghost predicate SpelledIn(metricFilter: seq<string>, stat: Stat) {
    exists i :: 0 <= i < |metricFilter| && Spells(metricFilter[i], stat)
  }

  lemma FieldAmongTranslated(metricFilter: seq<string>, stat: Stat)
    requires AllKnown(metricFilter, TableFields())
    ensures Field(stat) in TranslateAll(metricFilter, TableFields()) <==> SpelledIn(metricFilter, stat)
  {
    var fields := TranslateAll(metricFilter, TableFields());
    forall i | 0 <= i < |metricFilter|
      ensures fields[i] == Field(stat) <==> Spells(metricFilter[i], stat)
    {
      TranslatesToField(metricFilter[i], stat);
    }
  }

  /** End to end: for a filter the getter accepts, a queue's metric for a statistic is sent exactly when the filter is
      empty or spells that statistic, except that the count of spooled messages is never sent. */
  lemma SentIffSpelled(metricFilter: seq<string>, stat: Stat)
    requires AllKnown(metricFilter, TableFields())
    ensures stat in Selected(V2_STATS, FieldsFor(metricFilter)) <==>
      stat != MsgSpooled && (metricFilter == [] || SpelledIn(metricFilter, stat))
  {
    SelectedHas(V2_STATS, FieldsFor(metricFilter), stat);
    InV2Stats(stat);
    if metricFilter != [] {
      var fields := TranslateAll(metricFilter, TableFields());
      AddMissingHas(fields, MANDATORY, Field(stat));
      AddMissingHas(fields, MANDATORY, MANDATORY[0]);
      FieldIsOnlyAField(stat, stat);
      FieldAmongTranslated(metricFilter, stat);
    }
  }

  lemma InV2Stats(stat: Stat)
    ensures stat in V2_STATS <==> stat != MsgSpooled
  {
  }

  /** The fields the getter asks for. */
  function FieldsFor(metricFilter: seq<string>): seq<string> {
    if |metricFilter| > 0 then AddMissing(TranslateAll(metricFilter, TableFields()), MANDATORY) else []
  }

  /** The request of an accepted filter selects the names of queue and VPN, the field of every statistic that the filter
      spells, and nothing else; without a filter it selects nothing, and the broker sends all fields. */
  lemma RequestedIff(metricFilter: seq<string>, field: string)
    requires AllKnown(metricFilter, TableFields())
    ensures metricFilter == [] ==> FieldsFor(metricFilter) == []
    ensures metricFilter != [] ==>
      (field in FieldsFor(metricFilter) <==>
        || field == "queueName" || field == "msgVpnName"
        || exists stat :: Field(stat) == field && SpelledIn(metricFilter, stat))
  {
    if metricFilter != [] {
      var fields := TranslateAll(metricFilter, TableFields());
      AddMissingHas(fields, MANDATORY, field);
      if field in fields {
        var i :| 0 <= i < |fields| && fields[i] == field;
        var stat := KnownIsSpelled(metricFilter[i]);
        SpelledIsKnown(metricFilter[i], stat);
        assert Field(stat) == field && SpelledIn(metricFilter, stat);
      }
      if stat :| Field(stat) == field && SpelledIn(metricFilter, stat) {
        FieldAmongTranslated(metricFilter, stat);
      }
    }
  }

  /** A filter that names only the count of spooled messages is accepted and yields no metric at all. */
  lemma SpooledCountAloneYieldsNothing()
    ensures AllKnown([DescOf(MsgSpooled).fqName], TableFields())
    ensures forall stat :: stat !in Selected(V2_STATS, FieldsFor([DescOf(MsgSpooled).fqName]))
  {
    var f := [DescOf(MsgSpooled).fqName];
    SpelledIsKnown(f[0], MsgSpooled);
    forall stat
      ensures stat !in Selected(V2_STATS, FieldsFor(f))
    {
      SentIffSpelled(f, stat);
      if stat != MsgSpooled && Spells(f[0], stat) {
        FieldIsOnlyAField(MsgSpooled, stat);
        FqNameInjective(MsgSpooled, stat);
      }
    }
  }

  /* ---------- the two getters side by side ---------- */

  function Without(ms: seq<Metric>, d: Desc): seq<Metric> {
    if ms == [] then [] else (if ms[0].desc == d then [] else [ms[0]]) + Without(ms[1..], d)
  }

  lemma {:induction false} WithoutConcat(a: seq<Metric>, b: seq<Metric>, d: Desc)
    ensures Without(a + b, d) == Without(a, d) + Without(b, d)
  {
    if a == [] {
      assert a + b == b;
    } else {
      assert (a + b)[1..] == a[1..] + b;
      WithoutConcat(a[1..], b, d);
    }
  }

  function Except(stats: seq<Stat>, stat: Stat): seq<Stat> {
    if stats == [] then [] else (if stats[0] == stat then [] else [stats[0]]) + Except(stats[1..], stat)
  }

  lemma {:induction false} ExceptAbsent(stats: seq<Stat>, stat: Stat)
    requires stat !in stats
    ensures Except(stats, stat) == stats
  {
    if stats != [] {
      ExceptAbsent(stats[1..], stat);
    }
  }

  lemma RowIsStat(a: Stat, b: Stat)
    ensures DescOf(a) == DescOf(b) <==> a == b
  {
    if DescOf(a) == DescOf(b) {
      FqNameInjective(a, b);
    }
  }

  lemma QueueMetricsCons(q: Queue, stat: Stat, stats: seq<Stat>)
    ensures QueueMetrics(q, [stat] + stats) == [QueueMetric(q, stat)] + QueueMetrics(q, stats)
  {
  }

  lemma ExceptFirst(head: Stat, rest: seq<Stat>, stat: Stat)
    ensures Except([head] + rest, stat) == if head == stat then Except(rest, stat) else [head] + Except(rest, stat)
  {
    assert ([head] + rest)[1..] == rest;
  }

  lemma WithoutFirstRow(q: Queue, head: Stat, rest: seq<Stat>, stat: Stat)
    requires Without(QueueMetrics(q, rest), DescOf(stat)) == QueueMetrics(q, Except(rest, stat))
    ensures Without(QueueMetrics(q, [head] + rest), DescOf(stat)) == QueueMetrics(q, Except([head] + rest, stat))
  {
    RowIsStat(head, stat);
    ExceptFirst(head, rest, stat);
    QueueMetricsCons(q, head, rest);
    QueueMetricsCons(q, head, Except(rest, stat));
    WithoutFirst(QueueMetric(q, head), QueueMetrics(q, rest), DescOf(stat));
  }

  lemma {:induction false} WithoutRow(q: Queue, stats: seq<Stat>, stat: Stat)
    ensures Without(QueueMetrics(q, stats), DescOf(stat)) == QueueMetrics(q, Except(stats, stat))
  {
    if stats != [] {
      WithoutRow(q, stats[1..], stat);
      WithoutFirstRow(q, stats[0], stats[1..], stat);
      assert stats == [stats[0]] + stats[1..];
    }
  }

  lemma WithoutFirst(m: Metric, ms: seq<Metric>, d: Desc)
    ensures Without([m] + ms, d) == if m.desc == d then Without(ms, d) else [m] + Without(ms, d)
  {
    assert ([m] + ms)[1..] == ms;
  }

  lemma {:induction false} SelectedAll(stats: seq<Stat>)
    ensures Selected(stats, []) == stats
  {
    if stats != [] {
      SelectedAll(stats[..|stats| - 1]);
    }
  }

  lemma {:induction false} WithoutRowOfAll(qs: seq<Queue>, stats: seq<Stat>, stat: Stat)
    ensures Without(Emitted(qs, stats), DescOf(stat)) == Emitted(qs, Except(stats, stat))
  {
    if qs != [] {
      WithoutConcat(QueueMetrics(qs[0], stats), Emitted(qs[1..], stats), DescOf(stat));
      WithoutRow(qs[0], stats, stat);
      WithoutRowOfAll(qs[1..], stats, stat);
    }
  }

  lemma ExceptSecond(stats: seq<Stat>, first: Stat, stat: Stat, rest: seq<Stat>)
    requires first != stat && stat !in rest && stats == [first] + ([stat] + rest)
    ensures Except(stats, stat) == [first] + rest
  {
    assert stats[1..] == [stat] + rest && stats[1..][1..] == rest;
    ExceptAbsent(rest, stat);
    assert [] + rest == rest;
  }

  /** For the same queues the v2 getter without a filter sends what the v1 getter sends, in the same order, less the
      counts of spooled messages. */
  lemma GettersAgree(qs: seq<Queue>)
    ensures Emitted(qs, Selected(V2_STATS, FieldsFor([]))) == Without(Emitted(qs, V1_STATS), DescOf(MsgSpooled))
  {
    SelectedAll(V2_STATS);
    var rest := V2_STATS[1..];
    assert V1_STATS == [BytesSpooled] + ([MsgSpooled] + rest);
    assert V2_STATS == [BytesSpooled] + rest;
    ExceptSecond(V1_STATS, BytesSpooled, MsgSpooled, rest);
    WithoutRowOfAll(qs, V1_STATS, MsgSpooled);
  }

  /* ---------- the getter ---------- */

  lemma OneMoreRow(queue: Queue, stats: seq<Stat>, i: nat, fieldsToSelect: seq<string>)
    requires i < |stats|
    ensures QueueMetrics(queue, Selected(stats[..i + 1], fieldsToSelect)) ==
      QueueMetrics(queue, Selected(stats[..i], fieldsToSelect)) +
      (if IsSelected(stats[i], fieldsToSelect) then [QueueMetric(queue, stats[i])] else [])
  {
    assert stats[..i + 1][..i] == stats[..i];
  }

  /** The metrics of one queue whose field was selected, in table order. */
  method SelectMetrics(queue: Queue, fieldsToSelect: seq<string>) returns (sent: seq<Metric>)
    ensures sent == QueueMetrics(queue, Selected(V2_STATS, fieldsToSelect))
  {
    sent := [];
    for i := 0 to |V2_STATS|
      invariant sent == QueueMetrics(queue, Selected(V2_STATS[..i], fieldsToSelect))
    {
      OneMoreRow(queue, V2_STATS, i, fieldsToSelect);
      if IsSelected(V2_STATS[i], fieldsToSelect) {
        sent := sent + [QueueMetric(queue, V2_STATS[i])];
      }
    }
    assert V2_STATS[..|V2_STATS|] == V2_STATS;
  }

  method SendSelectedPage(queues: seq<Queue>, last: string, fieldsToSelect: seq<string>)
    returns (sent: seq<Metric>, lastQueueName: string)
    ensures sent == Emitted(KeptAfter(last, queues), Selected(V2_STATS, fieldsToSelect))
    ensures lastQueueName == LastKey(queues, last)
  {
    ghost var stats := Selected(V2_STATS, fieldsToSelect);
    sent, lastQueueName := [], last;
    for i := 0 to |queues|
      invariant sent == Emitted(KeptAfter(last, queues[..i]), stats)
      invariant lastQueueName == LastKey(queues[..i], last)
    {
      var queue := queues[i];
      assert queues[..i + 1] == queues[..i] + [queue];
      KeptAfterSnoc(last, queues[..i], queue);
      assert KeptAfter(last, queues[..i]) + [] == KeptAfter(last, queues[..i]);
      EmittedSnoc(KeptAfter(last, queues[..i]), queue, stats);
      var queueKey := KeyOf(queue.vpn, queue.name);
      if queueKey == lastQueueName {
        continue;
      }
      lastQueueName := queueKey;
      var metrics := SelectMetrics(queue, fieldsToSelect);
      sent := sent + metrics;
    }
    assert queues[..|queues|] == queues;
  }

  method ScrapeQueues(conv: Conversation<Counters>, fieldsToSelect: seq<string>)
    returns (ch: seq<Metric>, up: real, err: Option<string>)
    ensures ch == Emitted(Kept(Items(conv)), Selected(V2_STATS, fieldsToSelect))
    ensures EndsWith(End(conv), up, err)
  {
    ghost var stats := Selected(V2_STATS, fieldsToSelect);
    NothingSentYet(conv, stats);
    ch := [];
    var lastQueueName := "";
    ghost var seen: seq<Queue> := [];
    var nextURL := Some(conv);
    while nextURL.Some?
      invariant SentSoFar(conv, nextURL, seen, lastQueueName, ch, stats)
      decreases nextURL
    {
      var response := nextURL.value;
      if !response.Page? {
        AllSent(conv, nextURL, seen, lastQueueName, ch, stats);
        return ch, 0.0, Some(response.error);
      }
      PageSent(conv, response, seen, lastQueueName, ch, stats);
      nextURL := response.next;
      var sent;
      sent, lastQueueName := SendSelectedPage(response.items, lastQueueName, fieldsToSelect);
      ch := ch + sent;
      seen := seen + response.items;
    }
    AllSent(conv, nextURL, seen, lastQueueName, ch, stats);
    return ch, 1.0, None;
  }

  /** One for a complete conversation, and otherwise, for failed requests too, unlike in v1, zero and the failure's
      text. */
  predicate EndsWith(end: Conversation<Counters>, up: real, err: Option<string>) {
    match end
    case Page(_, _) => up == 1.0 && err == None
    case HttpError(text) => up == 0.0 && err == Some(text)
    case DecodeError(text) => up == 0.0 && err == Some(text)
    case BadResult(text) => up == 0.0 && err == Some(text)
  }

  /** A rejected filter sends no request; an accepted one selects what is sent for the queues kept. */
  method GetQueueStatsSemp2(conv: Conversation<Counters>, metricFilter: seq<string>)
    returns (ch: seq<Metric>, up: real, err: Option<string>)
    ensures AllKnown(metricFilter, TableFields()) ==>
      && ch == Emitted(Kept(Items(conv)), Selected(V2_STATS, FieldsFor(metricFilter)))
      && (up == 1.0 <==> End(conv).Page?)
      && EndsWith(End(conv), up, err)
    ensures !AllKnown(metricFilter, TableFields()) ==>
      ch == [] && up == 0.0 && err.Some? && FirstUnknown(metricFilter, TableFields(), err.value)
  {
    var fieldsToSelect: seq<string> := [];
    if |metricFilter| > 0 {
      var r := GetSempV2FieldsToSelect(metricFilter, MANDATORY, QUEUE_STATS);
      TableNamesDistinct();
      SelectionIsUnique(metricFilter, MANDATORY, QUEUE_STATS, r);
      if r.Err? {
        return [], 0.0, Some(r.error);
      }
      fieldsToSelect := r.value;
    }
    ch, up, err := ScrapeQueues(conv, fieldsToSelect);
  }
}
