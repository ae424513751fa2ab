/** client/queue.go: the bounded ring buffer used as the egress FIFO. */
module EgressQueue {
  import opened Wrappers

  const MAX_EGRESS_QUEUE_SIZE := 40

  /** The next place round the ring. */
  function Next(i: nat): nat
    requires i < MAX_EGRESS_QUEUE_SIZE
  {
    (i + 1) % MAX_EGRESS_QUEUE_SIZE
  }

  /** The place k after i. */
  function Place(i: nat, k: nat): (p: nat)
    requires i < MAX_EGRESS_QUEUE_SIZE && k <= MAX_EGRESS_QUEUE_SIZE
    ensures p < MAX_EGRESS_QUEUE_SIZE
  {
    if i + k < MAX_EGRESS_QUEUE_SIZE then i + k else i + k - MAX_EGRESS_QUEUE_SIZE
  }

  class Queue<T> {
    const content: array<T>
    const blank: T
    var readHead: nat
    var writeHead: nat
    var len: nat

    ghost predicate Valid()
      reads this
    {
      && content.Length == MAX_EGRESS_QUEUE_SIZE
      && readHead < MAX_EGRESS_QUEUE_SIZE && len <= MAX_EGRESS_QUEUE_SIZE
      && writeHead == Place(readHead, len)
    }

    /** The queued items, oldest first. */
    ghost function Contents(): (s: seq<T>)
      requires Valid()
      reads this, content
      ensures |s| == len
    {
      seq(len, k requires 0 <= k < len && Valid() reads this, content => content[Place(readHead, k)])
    }

    constructor (blank: T)
      ensures Valid() && fresh(content) && Contents() == [] && this.blank == blank
    {
      this.blank := blank;
      content := new T[MAX_EGRESS_QUEUE_SIZE](_ => blank);
      readHead, writeHead, len := 0, 0, 0;
    }

    /** Appends the item, or reports that the queue is full and leaves it alone. */
    method Push(e: T) returns (ok: bool)
      requires Valid()
      modifies this, content
      ensures Valid()
      ensures ok <==> |old(Contents())| < MAX_EGRESS_QUEUE_SIZE
      ensures Contents() == if ok then old(Contents()) + [e] else old(Contents())
    {
      if len >= MAX_EGRESS_QUEUE_SIZE {
        return false;
      }
      content[writeHead] := e;
      writeHead := Next(writeHead);
      len := len + 1;
      ok := true;
    }

    /** Takes the oldest item off, or reports that the queue is empty. */
    method Pop() returns (r: Option<T>)
      requires Valid()
      modifies this, content
      ensures Valid()
      ensures r == (if old(Contents()) == [] then None else Some(old(Contents())[0]))
      ensures Contents() == if old(Contents()) == [] then [] else old(Contents())[1..]
    {
      if len == 0 {
        return None;
      }
      r := Some(content[readHead]);
      content[readHead] := blank;
      readHead := Next(readHead);
      len := len - 1;
      assert Contents() == old(Contents())[1..];
    }

    method Peek() returns (r: Option<T>)
      requires Valid()
      ensures r == if Contents() == [] then None else Some(Contents()[0])
    {
      if len == 0 {
        return None;
      }
      r := Some(content[readHead]);
    }
  }
}
