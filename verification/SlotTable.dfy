/** The sparse client table both ten-slot chat servers keep: an array of descriptors in which zero
    marks a free slot. */
module SlotTable {
  import opened Common
  import opened Kernel
  import opened Mail

  type Msg = string

  const MAX_CLIENTS: nat := 10

  const FREE_TABLE: seq<int> := [0, 0, 0, 0, 0, 0, 0, 0, 0, 0]

  /** One send call: the descriptor it names and the text handed over. */
  datatype Send = Send(fd: int, msg: Msg)

  /** The new descriptor goes to the first free slot; a full table stays as it is. */
  function AddSlot(slots: seq<int>, fd: int): (r: seq<int>) {
    var i := IndexOf(slots, 0);
    if i < |slots| then slots[i := fd] else slots
  }

  /** The first slot naming fd is freed; a table that does not name it stays as it is. */
  function DropSlot(slots: seq<int>, fd: int): (r: seq<int>) {
    var i := IndexOf(slots, fd);
    if i < |slots| then slots[i := 0] else slots
  }

  /** The send calls of one broadcast over the first n slots. */
  function Sends(slots: seq<int>, sender: int, msg: Msg, n: nat): seq<Send>
    requires n <= |slots|
  {
    if n == 0 then []
    else if slots[n - 1] != 0 && slots[n - 1] != sender then
      Sends(slots, sender, msg, n - 1) + [Send(slots[n - 1], msg)]
    else Sends(slots, sender, msg, n - 1)
  }

  /** What one send call delivers: it reaches the connection its descriptor names at this moment, unless
      it fails. */
  function Arrival(socks: seq<Endpoint>, x: Send, failing: set<int>): seq<Letter<nat, Msg>> {
    if x.fd !in failing && Resolve(socks, x.fd).Some? then [Letter(Resolve(socks, x.fd).value, x.msg)] else []
  }

  /** Where the first n send calls end up. */
  function ArrivalsOf(socks: seq<Endpoint>, sends: seq<Send>, failing: set<int>, n: nat): seq<Letter<nat, Msg>>
    requires n <= |sends|
  {
    if n == 0 then [] else ArrivalsOf(socks, sends, failing, n - 1) + Arrival(socks, sends[n - 1], failing)
  }

  function Arrivals(socks: seq<Endpoint>, sends: seq<Send>, failing: set<int>): seq<Letter<nat, Msg>> {
    ArrivalsOf(socks, sends, failing, |sends|)
  }

  lemma {:induction false} ArrivalsOfFirst(
    socks: seq<Endpoint>, sends: seq<Send>, x: Send, failing: set<int>, n: nat)
    requires n <= |sends|
    ensures ArrivalsOf(socks, sends + [x], failing, n) == ArrivalsOf(socks, sends, failing, n)
  {
    if n > 0 { ArrivalsOfFirst(socks, sends, x, failing, n - 1); }
  }

  lemma ArrivalsStep(socks: seq<Endpoint>, sends: seq<Send>, x: Send, failing: set<int>)
    ensures Arrivals(socks, sends + [x], failing) == Arrivals(socks, sends, failing) + Arrival(socks, x, failing)
  {
    ArrivalsOfFirst(socks, sends, x, failing, |sends|);
  }

  /** The table names the open connection c. */
  predicate HasSlot(socks: seq<Endpoint>, slots: seq<int>, c: nat) {
    c < |socks| && socks[c].open && socks[c].fd in slots
  }

  /** No descriptor stands in two slots. */
  ghost predicate NoRepeats(slots: seq<int>) {
    forall i, j :: 0 <= i < j < |slots| && slots[i] != 0 ==> slots[i] != slots[j]
  }

  lemma AddNoRepeats(slots: seq<int>, fd: int)
    requires NoRepeats(slots) && fd !in slots
    ensures NoRepeats(AddSlot(slots, fd))
  {
  }

  lemma DropNoRepeats(slots: seq<int>, fd: int)
    requires NoRepeats(slots)
    ensures NoRepeats(DropSlot(slots, fd))
  {
  }

  /** Adding fd puts it in the table exactly when a slot is free, and keeps everyone else. */
  lemma AddAt(slots: seq<int>, fd: int, x: int)
    requires fd != 0 && x != 0
    ensures x in AddSlot(slots, fd) <==> x in slots || (x == fd && 0 in slots)
  {
  }

  /** Dropping fd takes out fd and nobody else. */
  lemma DropAt(slots: seq<int>, fd: int, x: int)
    requires fd != 0 && x != 0 && NoRepeats(slots)
    ensures x in DropSlot(slots, fd) <==> x in slots && x != fd
  {
  }

  /** A client's remove undoes its add, whether or not the add found a slot. */
  lemma AddThenDrop(slots: seq<int>, fd: int)
    requires fd != 0 && fd !in slots
    ensures DropSlot(AddSlot(slots, fd), fd) == slots
  {
  }
}
