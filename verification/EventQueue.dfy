/**
 The bounded event queue of a session (diagnostic_platform/session_orchestrator.py): ordinary events
 are refused when it is full, terminal ones evict the oldest until they fit.
 */
module EventQueue {
  import opened Common

  datatype Kind = Progress | DecisionRequired | DecisionResolved | DecisionTimeout | NetworkQualityChanged | Failure | Done

  datatype Message = Message(kind: Kind, text: string)

  predicate IsTerminal(m: Message) {
    m.kind == Failure || m.kind == Done
  }

  /** The queue after one event is emitted into it. */
  function Push(items: seq<Message>, m: Message, maxSize: nat): seq<Message>
    requires 0 < maxSize
  {
    if |items| < maxSize then items + [m]
    else if IsTerminal(m) then items[|items| - maxSize + 1..] + [m]
    else items
  }

  lemma DropHead(consumed: seq<Message>, items: seq<Message>, emitted: seq<Message>)
    requires items != [] && IsSubsequence(consumed + items, emitted)
    ensures IsSubsequence(consumed + items[1..], emitted)
    ensures multiset(items) == multiset{items[0]} + multiset(items[1..])
  {
    assert items == [items[0]] + items[1..];
    AppendAssoc(consumed, [items[0]], items[1..]);
    SubsequenceDrops(consumed, items[0], items[1..], emitted);
  }

  lemma MoveHead(consumed: seq<Message>, items: seq<Message>)
    requires items != []
    ensures consumed + items == consumed + [items[0]] + items[1..]
    ensures multiset(items) == multiset{items[0]} + multiset(items[1..])
  {
    assert items == [items[0]] + items[1..];
  }

  class BoundedQueue {
    const maxSize: nat
    var items: seq<Message>
    /** Everything emitted, and what became of it. */
    ghost var emitted: seq<Message>
    ghost var consumed: seq<Message>
    ghost var refused: multiset<Message>
    ghost var evicted: multiset<Message>

    ghost predicate Valid()
      reads this
    {
      && 0 < maxSize && |items| <= maxSize
      && IsSubsequence(consumed + items, emitted)
      && multiset(emitted) == multiset(consumed) + multiset(items) + refused + evicted
      && (forall m <- refused :: !IsTerminal(m))
    }

    constructor (maxSize: nat)
      requires 0 < maxSize
      ensures Valid() && items == [] && emitted == [] && this.maxSize == maxSize
    {
      this.maxSize := maxSize;
      items, emitted, consumed, refused, evicted := [], [], [], multiset{}, multiset{};
    }

    /** Events are consumed, queued, refused or evicted, each exactly once; only terminal ones evict. */
    method Emit(m: Message)
      requires Valid()
      modifies this
      ensures Valid()
      ensures items == Push(old(items), m, maxSize)
      ensures emitted == old(emitted) + [m] && consumed == old(consumed)
      ensures refused == old(refused) + if |old(items)| == maxSize && !IsTerminal(m) then multiset{m} else multiset{}
      ensures evicted == old(evicted) +
                         if |old(items)| == maxSize && IsTerminal(m) then multiset{old(items)[0]} else multiset{}
    {
      if |items| < maxSize {
        Append(m);
      } else if IsTerminal(m) {
        EnqueueTerminal(m);
      } else {
        SubsequenceSkips(consumed + items, emitted, m);
        emitted, refused := emitted + [m], refused + multiset{m};
      }
    }

    method Append(m: Message)
      requires Valid() && |items| < maxSize
      modifies this`items, this`emitted
      ensures Valid() && items == old(items) + [m] && emitted == old(emitted) + [m]
    {
      SubsequenceTakes(consumed + items, emitted, m);
      AppendAssoc(consumed, items, [m]);
      items, emitted := items + [m], emitted + [m];
    }

    method EvictOldest()
      requires Valid() && items != []
      modifies this`items, this`evicted
      ensures Valid() && items == old(items)[1..] && evicted == old(evicted) + multiset{old(items)[0]}
    {
      DropHead(consumed, items, emitted);
      ghost var oldest := items[0];
      items, evicted := items[1..], evicted + multiset{oldest};
    }

    /** _enqueue_terminal_event, with no consumer inside the loop. */
    method EnqueueTerminal(m: Message)
      requires Valid() && |items| == maxSize
      modifies this`items, this`emitted, this`evicted
      ensures Valid()
      ensures items == old(items)[1..] + [m]
      ensures emitted == old(emitted) + [m] && evicted == old(evicted) + multiset{old(items)[0]}
    {
      while |items| >= maxSize
        invariant Valid() && emitted == old(emitted)
        invariant if |items| == maxSize then items == old(items) && evicted == old(evicted)
                  else items == old(items)[1..] && evicted == old(evicted) + multiset{old(items)[0]}
        decreases |items|
      {
        EvictOldest();
      }
      Append(m);
    }

    method Get() returns (r: Option<Message>)
      requires Valid()
      modifies this`items, this`consumed
      ensures Valid()
      ensures old(items) == [] ==> r.None? && items == [] && consumed == old(consumed)
      ensures old(items) != [] ==>
                r == Some(old(items)[0]) && items == old(items)[1..] && consumed == old(consumed) + [old(items)[0]]
    {
      if items == [] {
        return None;
      }
      MoveHead(consumed, items);
      r := Some(items[0]);
      consumed, items := consumed + [items[0]], items[1..];
    }
  }
}
