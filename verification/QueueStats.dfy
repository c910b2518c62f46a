/** The queue statistics: their descriptors, and the SEMP v1 getter that pages through all queues. */
module QueueStats {
  import opened Results
  import opened Text
  import opened Metrics
  import opened Paging

  /** The counters of one queue that become metrics. */
  datatype Counters = Counters(
    totalByteSpooled: real, totalMsgSpooled: real, msgRedelivered: real, msgRetransmit: real, spoolUsageExceeded: real,
    msgSizeExceeded: real, deleted: real, spoolShutdownDiscard: real, ttlDiscarded: real, ttlDmq: real,
    ttlDmqFailed: real, maxRedeliveryDiscarded: real, maxRedeliveryDmq: real, maxRedeliveryDmqFailed: real)

  type Queue = Item<Counters>

  const VPN_QUEUE: seq<string> := ["vpn_name", "queue_name"]

  /** The table of queue metrics, in the order the v1 getter sends them. */
  datatype Stat =
    | BytesSpooled | MsgSpooled | Redelivered | Retransmitted | SpoolUsageExceeded | MsgSizeExceeded | Deleted
    | ShutdownDiscarded | TtlDiscarded | TtlDmq | TtlDmqFailed | MaxRedeliveredDiscarded | MaxRedeliveredDmq
    | MaxRedeliveredDmqFailed

  /** The metric's own part of its name. */
  function ShortName(stat: Stat): string {
    match stat
    case BytesSpooled => "queue_byte_spooled"
    case MsgSpooled => "queue_msg_spooled"
    case Redelivered => "queue_msg_redelivered"
    case Retransmitted => "queue_msg_retransmitted"
    case SpoolUsageExceeded => "queue_msg_spool_usage_exceeded"
    case MsgSizeExceeded => "queue_msg_max_msg_size_exceeded"
    case Deleted => "queue_msg_total_deleted"
    case ShutdownDiscarded => "queue_msg_shutdown_discarded"
    case TtlDiscarded => "queue_msg_ttl_discarded"
    case TtlDmq => "queue_msg_ttl_dmq"
    case TtlDmqFailed => "queue_msg_ttl_dmq_failed"
    case MaxRedeliveredDiscarded => "queue_msg_max_redelivered_discarded"
    case MaxRedeliveredDmq => "queue_msg_max_redelivered_dmq"
    case MaxRedeliveredDmqFailed => "queue_msg_max_redelivered_dmq_failed"
  }

  function Field(stat: Stat): string {
    match stat
    case BytesSpooled => "spooledByteCount"
    case MsgSpooled => "spooledMsgCount"
    case Redelivered => "redeliveredMsgCount"
    case Retransmitted => "transportRetransmitMsgCount"
    case SpoolUsageExceeded => "maxMsgSpoolUsageExceededDiscardedMsgCount"
    case MsgSizeExceeded => "maxMsgSizeExceededDiscardedMsgCount"
    case Deleted => "deletedMsgCount"
    case ShutdownDiscarded => "disabledDiscardedMsgCount"
    case TtlDiscarded => "maxTtlExpiredDiscardedMsgCount"
    case TtlDmq => "maxTtlExpiredToDmqMsgCount"
    case TtlDmqFailed => "maxTtlExpiredToDmqFailedMsgCount"
    case MaxRedeliveredDiscarded => "maxRedeliveryExceededDiscardedMsgCount"
    case MaxRedeliveredDmq => "maxRedeliveryExceededToDmqMsgCount"
    case MaxRedeliveredDmqFailed => "maxRedeliveryExceededToDmqFailedMsgCount"
  }

  function DescOf(stat: Stat): Desc {
    Desc("solace_" + ShortName(stat), Field(stat), VPN_QUEUE)
  }

  function CountOf(c: Counters, stat: Stat): real {
    match stat
    case BytesSpooled => c.totalByteSpooled
    case MsgSpooled => c.totalMsgSpooled
    case Redelivered => c.msgRedelivered
    case Retransmitted => c.msgRetransmit
    case SpoolUsageExceeded => c.spoolUsageExceeded
    case MsgSizeExceeded => c.msgSizeExceeded
    case Deleted => c.deleted
    case ShutdownDiscarded => c.spoolShutdownDiscard
    case TtlDiscarded => c.ttlDiscarded
    case TtlDmq => c.ttlDmq
    case TtlDmqFailed => c.ttlDmqFailed
    case MaxRedeliveredDiscarded => c.maxRedeliveryDiscarded
    case MaxRedeliveredDmq => c.maxRedeliveryDmq
    case MaxRedeliveredDmqFailed => c.maxRedeliveryDmqFailed
  }

  /** The counters with the one of this statistic replaced. */
  function WithCount(c: Counters, stat: Stat, x: real): Counters {
    match stat
    case BytesSpooled => c.(totalByteSpooled := x)
    case MsgSpooled => c.(totalMsgSpooled := x)
    case Redelivered => c.(msgRedelivered := x)
    case Retransmitted => c.(msgRetransmit := x)
    case SpoolUsageExceeded => c.(spoolUsageExceeded := x)
    case MsgSizeExceeded => c.(msgSizeExceeded := x)
    case Deleted => c.(deleted := x)
    case ShutdownDiscarded => c.(spoolShutdownDiscard := x)
    case TtlDiscarded => c.(ttlDiscarded := x)
    case TtlDmq => c.(ttlDmq := x)
    case TtlDmqFailed => c.(ttlDmqFailed := x)
    case MaxRedeliveredDiscarded => c.(maxRedeliveryDiscarded := x)
    case MaxRedeliveredDmq => c.(maxRedeliveryDmq := x)
    case MaxRedeliveredDmqFailed => c.(maxRedeliveryDmqFailed := x)
  }

  const V1_STATS: seq<Stat> := [
    BytesSpooled, MsgSpooled, Redelivered, Retransmitted, SpoolUsageExceeded, MsgSizeExceeded, Deleted,
    ShutdownDiscarded, TtlDiscarded, TtlDmq, TtlDmqFailed, MaxRedeliveredDiscarded, MaxRedeliveredDmq,
    MaxRedeliveredDmqFailed]

  function QueueMetric(q: Queue, stat: Stat): Metric {
    RawMetric(DescOf(stat), CounterValue, CountOf(q.payload, stat), [q.vpn, q.name], false)
  }

  function QueueMetrics(q: Queue, stats: seq<Stat>): seq<Metric> {
    seq(|stats|, i requires 0 <= i < |stats| => QueueMetric(q, stats[i]))
  }

  /** The value a metric has for one of its labels. */
  function LabelValue(m: Metric, wanted: string): Option<string> {
    ValueOf(m.desc.variableLabels, m.labelValues, wanted)
  }

  function ValueOf(labels: seq<string>, values: seq<string>, wanted: string): Option<string>
    requires |labels| == |values|
  {
    if labels == [] then None
    else if labels[0] == wanted then Some(values[0])
    else ValueOf(labels[1..], values[1..], wanted)
  }

  lemma FirstAndSecondValue(first: string, second: string, values: seq<string>)
    requires first != second && |values| == 2
    ensures ValueOf([first, second], values, first) == Some(values[0])
    ensures ValueOf([first, second], values, second) == Some(values[1])
  {
    assert [first, second][1..] == [second] && values[1..] == [values[1]];
    assert ValueOf([second], [values[1]], second) == Some(values[1]);
  }

  /** A queue's metric is an unmarked counter that says under the right labels which VPN and queue it is of. */
  lemma MetricNamesItsQueue(q: Queue, stat: Stat)
    ensures LabelValue(QueueMetric(q, stat), "vpn_name") == Some(q.vpn)
    ensures LabelValue(QueueMetric(q, stat), "queue_name") == Some(q.name)
    ensures QueueMetric(q, stat).valueType == CounterValue && !QueueMetric(q, stat).deprecated
  {
    assert |"vpn_name"| == 8 && |"queue_name"| == 10;
    FirstAndSecondValue("vpn_name", "queue_name", [q.vpn, q.name]);
  }

  lemma CountReplaced(c: Counters, stat: Stat, x: real, other: Stat)
    ensures CountOf(WithCount(c, stat, x), other) == if other == stat then x else CountOf(c, other)
  {
  }

  /** A queue that differs in one counter differs in the metric of exactly that statistic, which has the counter's
      value. */
  lemma OneCounterOneMetric(q: Queue, stat: Stat, x: real, other: Stat)
    ensures var p := q.(payload := WithCount(q.payload, stat, x));
      QueueMetric(p, other) ==
        if other == stat then QueueMetric(q, other).(value := x) else QueueMetric(q, other)
  {
    CountReplaced(q.payload, stat, x, other);
  }

  /** What the getter sends for a list of queues. */
  function Emitted(qs: seq<Queue>, stats: seq<Stat>): seq<Metric> {
    if qs == [] then [] else QueueMetrics(qs[0], stats) + Emitted(qs[1..], stats)
  }

  lemma {:induction false} EmittedSnoc(qs: seq<Queue>, q: Queue, stats: seq<Stat>)
    ensures Emitted(qs + [q], stats) == Emitted(qs, stats) + QueueMetrics(q, stats)
  {
    if qs == [] {
      assert qs + [q] == [q];
    } else {
      assert (qs + [q])[1..] == qs[1..] + [q];
      EmittedSnoc(qs[1..], q, stats);
    }
  }

  lemma {:induction false} EmittedConcat(ps: seq<Queue>, qs: seq<Queue>, stats: seq<Stat>)
    ensures Emitted(ps + qs, stats) == Emitted(ps, stats) + Emitted(qs, stats)
  {
    if ps == [] {
      assert ps + qs == qs;
    } else {
      assert (ps + qs)[1..] == ps[1..] + qs;
      EmittedConcat(ps[1..], qs, stats);
    }
  }

  /** A paging loop has sent what belongs to the pages it has seen; `rest` is still to be asked for. */
  ghost predicate SentSoFar(
    conv: Conversation<Counters>, rest: Option<Conversation<Counters>>, seen: seq<Queue>, last: string, ch: seq<Metric>,
    stats: seq<Stat>)
  {
    Taken(conv, seen, rest) && last == LastKey(seen, "") && ch == Emitted(KeptAfter("", seen), stats)
  }

  lemma NothingSentYet(conv: Conversation<Counters>, stats: seq<Stat>)
    ensures SentSoFar(conv, Some(conv), [], "", [], stats)
  {
    assert [] + Items(conv) == Items(conv);
  }

  lemma PageSent(
    conv: Conversation<Counters>, page: Conversation<Counters>, seen: seq<Queue>, last: string, ch: seq<Metric>,
    stats: seq<Stat>)
    requires page.Page? && SentSoFar(conv, Some(page), seen, last, ch, stats)
    ensures SentSoFar(conv, page.next, seen + page.items, LastKey(page.items, last),
                      ch + Emitted(KeptAfter(last, page.items), stats), stats)
  {
    TakePage(conv, seen, page);
    KeptAfterConcat("", seen, page.items);
    EmittedConcat(KeptAfter("", seen), KeptAfter(last, page.items), stats);
  }

  lemma AllSent(
    conv: Conversation<Counters>, rest: Option<Conversation<Counters>>, seen: seq<Queue>, last: string, ch: seq<Metric>,
    stats: seq<Stat>)
    requires SentSoFar(conv, rest, seen, last, ch, stats) && (rest.Some? ==> !rest.value.Page?)
    ensures ch == Emitted(Kept(Items(conv)), stats)
    ensures if rest.Some? then End(conv) == rest.value else End(conv).Page?
  {
    if rest.Some? {
      TakePage(conv, seen, rest.value);
    }
    KeptIsKeptAfter(Items(conv));
  }

  /** The loop over one page: skip what has the key of the item before it, send the metrics of the rest. */
  method SendPage(queues: seq<Queue>, last: string) returns (sent: seq<Metric>, lastQueueName: string)
    ensures sent == Emitted(KeptAfter(last, queues), V1_STATS)
    ensures lastQueueName == LastKey(queues, last)
  {
    sent, lastQueueName := [], last;
    for i := 0 to |queues|
      invariant sent == Emitted(KeptAfter(last, queues[..i]), V1_STATS)
      invariant lastQueueName == LastKey(queues[..i], last)
    {
      var queue := queues[i];
      var queueKey := KeyOf(queue.vpn, queue.name);
      assert queues[..i + 1] == queues[..i] + [queue];
      KeptAfterSnoc(last, queues[..i], queue);
      assert KeptAfter(last, queues[..i]) + [] == KeptAfter(last, queues[..i]);
      EmittedSnoc(KeptAfter(last, queues[..i]), queue, V1_STATS);
      if queueKey == lastQueueName {
        continue;
      }
      lastQueueName := queueKey;
      sent := sent + QueueMetrics(queue, V1_STATS);
    }
    assert queues[..|queues|] == queues;
  }

  /** The paging loop, keeping the last key from page to page. Only a failed request makes the result negative. */
  method GetQueueStatsSemp1(conv: Conversation<Counters>) returns (ch: seq<Metric>, up: real, err: Option<string>)
    ensures ch == Emitted(Kept(Items(conv)), V1_STATS)
    ensures up < 0.0 <==> End(conv).HttpError?
    ensures match End(conv)
      case HttpError(text) => up == -1.0 && err == Some(text)
      case DecodeError(text) => up == 0.0 && err == Some(text)
      case BadResult(text) => up == 0.0 && err == Some(text)
      case Page(_, _) => up == 1.0 && err == None
  {
    NothingSentYet(conv, V1_STATS);
    ch := [];
    var lastQueueName := "";
    ghost var seen: seq<Queue> := [];
    var command := Some(conv);
    while command.Some?
      invariant SentSoFar(conv, command, seen, lastQueueName, ch, V1_STATS)
      decreases command
    {
      var target := command.value;
      if !target.Page? {
        AllSent(conv, command, seen, lastQueueName, ch, V1_STATS);
        return ch, if target.HttpError? then -1.0 else 0.0, Some(target.error);
      }
      PageSent(conv, target, seen, lastQueueName, ch, V1_STATS);
      command := target.next;
      var sent;
      sent, lastQueueName := SendPage(target.items, lastQueueName);
      ch := ch + sent;
      seen := seen + target.items;
    }
    AllSent(conv, command, seen, lastQueueName, ch, V1_STATS);
    return ch, 1.0, None;
  }

  lemma {:induction false} ScriptItems(pages: seq<seq<Queue>>, end: Conversation<Counters>)
    ensures Items(Script(pages, end)) == Flatten(pages) + Items(end) && End(Script(pages, end)) == End(end)
  {
    if pages == [] {
      assert Flatten(pages) + Items(end) == Items(end);
    } else {
      var first, rest := pages[0], pages[1..];
      ScriptItems(rest, end);
      assert Items(Script(pages, end)) == first + Items(Script(rest, end));
      assert first + (Flatten(rest) + Items(end)) == (first + Flatten(rest)) + Items(end);
    }
  }

  /** A conversation that fails after some pages sends exactly what those pages send, which is where every conversation
      that goes on from them begins, and it ends with that failure. */
  lemma FailureKeepsEarlierMetrics(
    pages: seq<seq<Queue>>, failure: Conversation<Counters>, onward: Conversation<Counters>, stats: seq<Stat>)
    requires !failure.Page?
    ensures Emitted(Kept(Items(Script(pages, failure))), stats) == Emitted(Kept(Flatten(pages)), stats)
    ensures Emitted(Kept(Flatten(pages)), stats) <= Emitted(Kept(Items(Script(pages, onward))), stats)
    ensures End(Script(pages, failure)) == failure
  {
    ScriptItems(pages, failure);
    assert Flatten(pages) + Items(failure) == Flatten(pages);
    ScriptItems(pages, onward);
    KeptIsKeptAfter(Flatten(pages));
    KeptIsKeptAfter(Flatten(pages) + Items(onward));
    KeptAfterConcat("", Flatten(pages), Items(onward));
    var later := KeptAfter(LastKey(Flatten(pages), ""), Items(onward));
    EmittedConcat(Kept(Flatten(pages)), later, stats);
  }

  /* ---------- what is sent never collides in a metric map ---------- */

  /** Half of the statistics, to keep each proof about the texts small. */
  predicate IsLate(stat: Stat) {
    stat.TtlDiscarded? || stat.TtlDmq? || stat.TtlDmqFailed? || stat.MaxRedeliveredDiscarded? || stat.MaxRedeliveredDmq?
    || stat.MaxRedeliveredDmqFailed? || stat.MsgSizeExceeded?
  }

  lemma LateNameIsPlain(stat: Stat)
    requires IsLate(stat)
    ensures Free(ShortName(stat), '{')
  {
    match stat
    case MsgSizeExceeded =>
    case TtlDiscarded =>
    case TtlDmq =>
    case TtlDmqFailed =>
    case MaxRedeliveredDiscarded =>
    case MaxRedeliveredDmq =>
    case MaxRedeliveredDmqFailed =>
    case _ =>
  }

  lemma EarlyNameIsPlain(stat: Stat)
    requires !IsLate(stat)
    ensures Free(ShortName(stat), '{')
  {
    match stat
    case BytesSpooled =>
    case MsgSpooled =>
    case Redelivered =>
    case Retransmitted =>
    case SpoolUsageExceeded =>
    case Deleted =>
    case ShutdownDiscarded =>
    case _ =>
  }

  lemma DescIsPlain(stat: Stat)
    ensures PlainDesc(DescOf(stat))
  {
    if IsLate(stat) {
      LateNameIsPlain(stat);
    } else {
      EarlyNameIsPlain(stat);
    }
    assert Free("solace_", '{') && Free("vpn_name", '=') && Free("queue_name", '=');
  }

  /** Length, and where lengths agree the text after the common prefix, tell the names apart. */
  function Signature(stat: Stat): (nat, char, char) {
    match stat
    case BytesSpooled => (18, '_', 's')
    case MsgSpooled => (17, 's', 'p')
    case Redelivered => (21, 'r', 'e')
    case Retransmitted => (23, 'r', 'e')
    case SpoolUsageExceeded => (30, 's', 'p')
    case MsgSizeExceeded => (31, 'm', 'a')
    case Deleted => (23, 't', 'o')
    case ShutdownDiscarded => (28, 's', 'h')
    case TtlDiscarded => (23, 't', 't')
    case TtlDmq => (17, 't', 't')
    case TtlDmqFailed => (24, 't', 't')
    case MaxRedeliveredDiscarded => (35, 'm', 'a')
    case MaxRedeliveredDmq => (29, 'm', 'a')
    case MaxRedeliveredDmqFailed => (36, 'm', 'a')
  }

  lemma ShortNameHasSignature(stat: Stat)
    ensures |ShortName(stat)| >= 12
    ensures Signature(stat) == (|ShortName(stat)|, ShortName(stat)[10], ShortName(stat)[11])
  {
  }

  lemma FqNameInjective(a: Stat, b: Stat)
    requires DescOf(a).fqName == DescOf(b).fqName
    ensures a == b
  {
    CancelPrefix("solace_", ShortName(a), ShortName(b));
    ShortNameHasSignature(a);
    ShortNameHasSignature(b);
  }

  /** Every statistic of every queue is a series of its own. */
  lemma QueueMetricsDistinct(p: Queue, q: Queue, a: Stat, b: Stat)
    requires QuoteFree([p.vpn, p.name]) && QuoteFree([q.vpn, q.name])
    requires Name(QueueMetric(p, a)) == Name(QueueMetric(q, b))
    ensures a == b && SameEndpoint(p, q)
  {
    DescIsPlain(a);
    DescIsPlain(b);
    NameInjective(QueueMetric(p, a), QueueMetric(q, b));
    FqNameInjective(a, b);
    assert p.vpn == [p.vpn, p.name][0] && p.name == [p.vpn, p.name][1];
  }
}
