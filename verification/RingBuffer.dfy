/** The ring buffer of src/console.h as code, run by one thread at a time; module Console has the same
    loads, exchanges and stores as separate steps of many threads. */
module RingBuffers {
  import opened Options
  import opened Console

  /** Two tickets of the same window share a slot only if they are the same. */
  lemma SameSlot(base: nat, t: nat, u: nat)
    requires base <= t < base + BUFFER_SIZE && base <= u < base + BUFFER_SIZE && SlotOf(t) == SlotOf(u)
    ensures t == u
  {
    if t < u { WindowDistinct(t, u); } else if u < t { WindowDistinct(u, t); }
  }

  lemma NextRound(t: nat)
    ensures 0 <= SlotOf(t) < BUFFER_SIZE && SlotOf(t + BUFFER_SIZE) == SlotOf(t)
  {
  }

  class RingBuffer {
    const sequences: array<nat>
    const messages: array<Option<Message>>
    var head: nat
    var tail: nat
    ghost var contents: seq<Message>

    /** From `tail` to `head` the slots hold the messages of their tickets, published; from there on
        they are free, each for its ticket. */
    ghost predicate Valid()
      reads this, sequences, messages
    {
      && sequences.Length == messages.Length == BUFFER_SIZE
      && tail <= head <= tail + BUFFER_SIZE && |contents| == head - tail
      && (forall t: nat :: tail <= t < head ==> Published(t))
      && (forall t: nat :: head <= t < tail + BUFFER_SIZE ==> Free(t))
    }

    ghost predicate Published(t: nat)
      requires sequences.Length == messages.Length == BUFFER_SIZE && tail <= t < tail + |contents|
      reads this, sequences, messages
    {
      NextRound(t);
      sequences[SlotOf(t)] == t + 1 && messages[SlotOf(t)] == Some(contents[t - tail])
    }

    ghost predicate Free(t: nat)
      requires sequences.Length == BUFFER_SIZE
      reads sequences
    {
      NextRound(t);
      sequences[SlotOf(t)] == t
    }

    constructor ()
      ensures Valid() && contents == [] && fresh(sequences) && fresh(messages)
    {
      sequences := new nat[BUFFER_SIZE](i => i);
      messages := new Option<Message>[BUFFER_SIZE](i => None);
      head, tail, contents := 0, 0, [];
    }

    /** The sequence number under `head` is `head` if there is room, and smaller if there is none. */
    lemma Verdict()
      requires Valid()
      ensures 0 <= SlotOf(head) < BUFFER_SIZE
      ensures if head < tail + BUFFER_SIZE then sequences[SlotOf(head)] == head else sequences[SlotOf(head)] < head
    {
      NextRound(head);
      if head < tail + BUFFER_SIZE {
        assert Free(head);
      } else {
        NextRound(tail);
        assert Published(tail);
      }
    }

    /** `Push`; the weak compare-exchange fails `spurious` times for no reason. With one thread the
        sequence number is never ahead, so the third branch of the source is not reached. */
    method Push(msg: Message, spurious: nat) returns (ok: bool)
      requires Valid()
      modifies this`head, this`contents, sequences, messages
      ensures Valid()
      ensures ok <==> |old(contents)| < BUFFER_SIZE
      ensures contents == if ok then old(contents) + [msg] else old(contents)
    {
      hide SlotOf;
      var failures := spurious;
      var pos := head;
      while true
        invariant Valid() && pos == head == old(head) && contents == old(contents)
        decreases failures
      {
        Verdict();
        var sequence := sequences[SlotOf(pos)];
        if sequence == pos {
          if failures == 0 {
            label Claimed:
            head := pos + 1;
            Store(pos, Some(msg), pos + 1, tail);
            contents := contents + [msg];
            forall t: nat | tail <= t < head ensures Published(t) {
              if t < pos { assert old@Claimed(Published(t)); }
            }
            forall t: nat | head <= t < tail + BUFFER_SIZE ensures Free(t) { assert old@Claimed(Free(t)); }
            return true;
          }
          failures := failures - 1;
          pos := head;
        } else {
          return false;
        }
      }
    }

    /** Writes the slot of one ticket, and so of no other in the window. */
    method Store(pos: nat, message: Option<Message>, sequence: nat, ghost base: nat)
      requires sequences.Length == messages.Length == BUFFER_SIZE && base <= pos < base + BUFFER_SIZE
      modifies sequences, messages
      ensures forall t: nat :: base <= t < base + BUFFER_SIZE ==> 0 <= SlotOf(t) < BUFFER_SIZE
      ensures sequences[SlotOf(pos)] == sequence && messages[SlotOf(pos)] == message
      ensures forall t: nat :: base <= t < base + BUFFER_SIZE && t != pos ==>
                sequences[SlotOf(t)] == old(sequences[SlotOf(t)]) && messages[SlotOf(t)] == old(messages[SlotOf(t)])
    {
      NextRound(pos);
      messages[SlotOf(pos)] := message;
      sequences[SlotOf(pos)] := sequence;
      forall t: nat | base <= t < base + BUFFER_SIZE ensures 0 <= SlotOf(t) < BUFFER_SIZE && (t != pos ==> SlotOf(t) != SlotOf(pos)) {
        NextRound(t);
        if SlotOf(t) == SlotOf(pos) { SameSlot(base, t, pos); }
      }
    }

    /** `Pop`: the oldest message, if there is one; its slot is free for the next round. */
    method Pop() returns (ok: bool, out: Option<Message>)
      requires Valid()
      modifies this`tail, this`contents, sequences, messages
      ensures Valid()
      ensures ok <==> old(contents) != []
      ensures if ok then out == Some(old(contents)[0]) && contents == old(contents)[1..] else contents == old(contents)
    {
      hide SlotOf;
      var pos := tail;
      out := None;
      if pos < head { assert Published(pos); } else { assert Free(pos); }
      NextRound(pos);
      var sequence := sequences[SlotOf(pos)];
      if sequence != pos + 1 { return false, None; }
      tail := pos + 1;
      out := messages[SlotOf(pos)];
      Store(pos, None, pos + BUFFER_SIZE, pos);
      contents := contents[1..];
      ok := true;
      forall t: nat | tail <= t < head ensures Published(t) { assert old(Published(t)); }
      forall t: nat | head <= t < tail + BUFFER_SIZE ensures Free(t) {
        if t < pos + BUFFER_SIZE { assert old(Free(t)); }
      }
    }
  }
}
