/**
 * The transcript that interleaves messages with resolved interactions
 * (src/components/Chat/MessageList.tsx). Times are the parsed milliseconds of
 * the ISO timestamps; a message without one counts as time 0.
 */
module MessageList {
  import opened Wrappers
  import opened Seqs
  import opened Sorting
  import opened SessionTypes

  datatype MergedItem = MessageItem(message: Message) | InteractionItem(interaction: ResolvedInteraction)

  function TimeOf(item: MergedItem): int {
    match item
    case MessageItem(m) => m.timestamp.GetOr(0)
    case InteractionItem(i) => i.resolvedAt
  }

  /** The comparator `aTime - bTime`, as the order "not later than". */
  function ByTime(): (MergedItem, MergedItem) -> bool {
    (a: MergedItem, b: MergedItem) => TimeOf(a) <= TimeOf(b)
  }

  lemma ByTimeIsPreorder()
    ensures TotalPreorder(ByTime())
  {
  }

  function Tagged(messages: seq<Message>, interactions: seq<ResolvedInteraction>): seq<MergedItem> {
    Map(messages, m => MessageItem(m)) + Map(interactions, i => InteractionItem(i))
  }

  /** `getMergedTranscript`: messages then interactions, stably sorted by time. */
  function MergedTranscript(messages: seq<Message>, interactions: seq<ResolvedInteraction>): (r: seq<MergedItem>)
    ensures |r| == |messages| + |interactions|
  {
    Sort(Tagged(messages, interactions), ByTime())
  }

  lemma {:induction false} SameRankAppend<T>(a: seq<T>, b: seq<T>, le: (T, T) -> bool, e: T)
    ensures SameRank(a + b, le, e) == SameRank(a, le, e) + SameRank(b, le, e)
  {
    if a != [] {
      SameRankAppend(a[1..], b, le, e);
      assert (a + b)[1..] == a[1..] + b;
    } else {
      assert a + b == b;
    }
  }

  /**
   * The transcript holds every message and every interaction once, in time
   * order; items at the same time keep their input order, messages before
   * interactions.
   */
  lemma MergedSpec(messages: seq<Message>, interactions: seq<ResolvedInteraction>, e: MergedItem)
    ensures var r := MergedTranscript(messages, interactions);
      && Sorted(r, ByTime())
      && multiset(r) == multiset(Tagged(messages, interactions))
      && (forall m :: m in messages ==> MessageItem(m) in r)
      && (forall i :: i in interactions ==> InteractionItem(i) in r)
      && SameRank(r, ByTime(), e)
           == SameRank(Map(messages, m => MessageItem(m)), ByTime(), e)
              + SameRank(Map(interactions, i => InteractionItem(i)), ByTime(), e)
  {
    var t := Tagged(messages, interactions);
    ByTimeIsPreorder();
    SortSorted(t, ByTime());
    SortStable(t, ByTime(), e);
    SameRankAppend(Map(messages, m => MessageItem(m)), Map(interactions, i => InteractionItem(i)), ByTime(), e);
    forall m | m in messages ensures MessageItem(m) in MergedTranscript(messages, interactions) {
      var k :| 0 <= k < |messages| && messages[k] == m;
      assert t[k] == MessageItem(m);
      SortElements(t, ByTime(), MessageItem(m));
    }
    forall i | i in interactions ensures InteractionItem(i) in MergedTranscript(messages, interactions) {
      var k :| 0 <= k < |interactions| && interactions[k] == i;
      assert t[|messages| + k] == InteractionItem(i);
      SortElements(t, ByTime(), InteractionItem(i));
    }
  }
}
