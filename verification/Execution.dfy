/** The replay-protected key-value state machine. */
module Execution {
  import opened Messages

  datatype StateValue = StateValue(data: map<string, string>, seen: map<Id, set<int>>)

  const EmptyState := StateValue(map[], map[])

  /** The part of a key before its first slash, if it has one. */
  function Owner(key: string): (owner: Option<string>)
    ensures owner.Some? ==> exists rest :: key == owner.value + "/" + rest && '/' !in owner.value
    ensures owner.None? <==> '/' !in key
  {
    if key == "" then None
    else if key[0] == '/' then
      assert key == "" + "/" + key[1..];
      Some("")
    else
      match Owner(key[1..])
      case None => None
      case Some(o) =>
        var rest :| key[1..] == o + "/" + rest && '/' !in o;
        assert key == ([key[0]] + o) + "/" + rest;
        Some([key[0]] + o)
  }

  predicate Seen(s: StateValue, sender: Id, nonce: int) { sender in s.seen && nonce in s.seen[sender] }

  /** Signed by its sender, writing a key the sender owns. */
  predicate Authorised(c: Crypto, tx: Transaction) {
    c.TxVerifies(tx) && Owner(tx.key) == Some(tx.sender)
  }

  predicate CanApply(c: Crypto, s: StateValue, tx: Transaction) {
    Authorised(c, tx) && !Seen(s, tx.sender, tx.nonce)
  }

  function Write(s: StateValue, tx: Transaction): StateValue {
    StateValue(
      s.data[tx.key := tx.value],
      s.seen[tx.sender := (if tx.sender in s.seen then s.seen[tx.sender] else {}) + {tx.nonce}])
  }

  function ApplyTx(c: Crypto, s: StateValue, tx: Transaction): StateValue {
    if CanApply(c, s, tx) then Write(s, tx) else s
  }

  function ApplyAll(c: Crypto, s: StateValue, txs: seq<Transaction>): StateValue {
    if txs == [] then s else ApplyTx(c, ApplyAll(c, s, txs[..|txs| - 1]), txs[|txs| - 1])
  }

  function StateRoot(c: Crypto, s: StateValue): Hash { c.hash(DataObject(s.data)) }

  /** The root names the data, all of it and nothing else: states have one root exactly when they hold the same data. */
  lemma SameRootIff(c: Crypto, s: StateValue, t: StateValue)
    requires c.CollisionFree()
    ensures StateRoot(c, s) == StateRoot(c, t) <==> s.data == t.data
  {
    if StateRoot(c, s) == StateRoot(c, t) { assert DataObject(s.data) == DataObject(t.data); }
  }

  lemma {:induction false} ApplyAllConcat(c: Crypto, s: StateValue, a: seq<Transaction>, b: seq<Transaction>)
    ensures ApplyAll(c, s, a + b) == ApplyAll(c, ApplyAll(c, s, a), b)
  {
    if b == [] {
      assert a + b == a;
    } else {
      var k := |b| - 1;
      assert (a + b)[..|a + b| - 1] == a + b[..k];
      ApplyAllConcat(c, s, a, b[..k]);
    }
  }

  // ---- exactly once ----

  lemma {:induction false} SeenGrows(c: Crypto, s: StateValue, txs: seq<Transaction>, sender: Id, nonce: int)
    requires Seen(s, sender, nonce)
    ensures Seen(ApplyAll(c, s, txs), sender, nonce)
  {
    if txs != [] { SeenGrows(c, s, txs[..|txs| - 1], sender, nonce); }
  }

  /** Once a list has been processed, none of its transactions can be applied any more. */
  lemma {:induction false} ProcessedCannotApply(c: Crypto, s: StateValue, txs: seq<Transaction>, tx: Transaction)
    requires tx in txs
    ensures !CanApply(c, ApplyAll(c, s, txs), tx)
  {
    var k := |txs| - 1;
    if tx in txs[..k] {
      ProcessedCannotApply(c, s, txs[..k], tx);
    }
  }

  /** Replaying transactions that were already processed, in any order and number, changes nothing. */
  lemma {:induction false} ReplayChangesNothing(c: Crypto, s: StateValue, txs: seq<Transaction>, replay: seq<Transaction>)
    requires forall tx :: tx in replay ==> tx in txs
    ensures ApplyAll(c, ApplyAll(c, s, txs), replay) == ApplyAll(c, s, txs)
  {
    if replay != [] {
      var k := |replay| - 1;
      ReplayChangesNothing(c, s, txs, replay[..k]);
      assert replay[k] in replay;
      ProcessedCannotApply(c, s, txs, replay[k]);
    }
  }

  /** The i-th transaction of the list takes effect when the list is applied to s. */
  predicate TakesEffect(c: Crypto, s: StateValue, txs: seq<Transaction>, i: nat)
    requires i < |txs|
  {
    CanApply(c, ApplyAll(c, s, txs[..i]), txs[i])
  }

  /** Of all transactions with the same sender and nonce, at most one ever takes effect. */
  lemma ExactlyOnce(c: Crypto, s: StateValue, txs: seq<Transaction>, i: nat, j: nat)
    requires i < |txs| && j < |txs| && i != j
    requires TakesEffect(c, s, txs, i) && TakesEffect(c, s, txs, j)
    ensures txs[i].sender != txs[j].sender || txs[i].nonce != txs[j].nonce
  {
    var lo, hi := if i < j then i else j, if i < j then j else i;
    var before := txs[..lo + 1];
    assert before[..lo] == txs[..lo];
    assert Seen(ApplyAll(c, s, before), txs[lo].sender, txs[lo].nonce);
    SeenGrows(c, ApplyAll(c, s, before), txs[lo + 1..hi], txs[lo].sender, txs[lo].nonce);
    assert txs[..hi] == before + txs[lo + 1..hi];
    ApplyAllConcat(c, s, before, txs[lo + 1..hi]);
  }

  // ---- ownership ----

  /** The last transaction that took effect on a key. */
  ghost predicate LastWriter(c: Crypto, s: StateValue, txs: seq<Transaction>, key: string, i: nat) {
    i < |txs| && TakesEffect(c, s, txs, i) && txs[i].key == key &&
    forall j: nat :: i < j < |txs| && txs[j].key == key ==> !TakesEffect(c, s, txs, j)
  }

  ghost predicate Unwritten(c: Crypto, s: StateValue, txs: seq<Transaction>, key: string) {
    forall i: nat :: i < |txs| && txs[i].key == key ==> !TakesEffect(c, s, txs, i)
  }

  lemma TakesEffectInPrefix(c: Crypto, s: StateValue, txs: seq<Transaction>, k: nat, i: nat)
    requires i < k <= |txs|
    ensures TakesEffect(c, s, txs, i) == TakesEffect(c, s, txs[..k], i)
  {
    assert txs[..k][..i] == txs[..i];
  }

  lemma WritersInPrefix(c: Crypto, s: StateValue, txs: seq<Transaction>, key: string)
    requires txs != [] && (TakesEffect(c, s, txs, |txs| - 1) ==> txs[|txs| - 1].key != key)
    ensures var before := txs[..|txs| - 1];
      && (forall i: nat :: LastWriter(c, s, before, key, i) ==> LastWriter(c, s, txs, key, i))
      && (Unwritten(c, s, before, key) ==> Unwritten(c, s, txs, key))
  {
    var k := |txs| - 1;
    forall i: nat | i < k ensures TakesEffect(c, s, txs, i) == TakesEffect(c, s, txs[..k], i) {
      TakesEffectInPrefix(c, s, txs, k, i);
    }
  }

  /** Every key holds what its last effective writer put there, and that writer owns it and signed the transaction;
      a key nobody wrote is as it was. */
  lemma {:induction false} StoredByOwner(c: Crypto, s: StateValue, txs: seq<Transaction>, key: string)
    returns (writer: Option<nat>)
    ensures writer.Some? ==> LastWriter(c, s, txs, key, writer.value)
    ensures writer.Some? ==> Owner(key) == Some(txs[writer.value].sender)
    ensures writer.Some? ==> var tx := txs[writer.value];
              tx.signature.Some? && c.check(tx.sender, TxDomain(tx.Payload()), tx.signature.value)
    ensures writer.Some? ==> var data := ApplyAll(c, s, txs).data; key in data && data[key] == txs[writer.value].value
    ensures writer.None? ==> Unwritten(c, s, txs, key)
    ensures writer.None? ==> var data := ApplyAll(c, s, txs).data;
              (key in data <==> key in s.data) && (key in data ==> data[key] == s.data[key])
  {
    if txs == [] {
      writer := None;
    } else {
      var k := |txs| - 1;
      if TakesEffect(c, s, txs, k) && txs[k].key == key {
        writer := Some(k);
      } else {
        writer := StoredByOwner(c, s, txs[..k], key);
        WritersInPrefix(c, s, txs, key);
      }
    }
  }

  // ---- interleaving ----

  function BySender(txs: seq<Transaction>, sender: Id): seq<Transaction> {
    if txs == [] then []
    else (if txs[0].sender == sender then [txs[0]] else []) + BySender(txs[1..], sender)
  }

  lemma {:induction false} BySenderConcat(a: seq<Transaction>, b: seq<Transaction>, sender: Id)
    ensures BySender(a + b, sender) == BySender(a, sender) + BySender(b, sender)
  {
    if a == [] {
      assert a + b == b;
    } else {
      var head := if a[0].sender == sender then [a[0]] else [];
      assert (a + b)[0] == a[0] && (a + b)[1..] == a[1..] + b;
      BySenderConcat(a[1..], b, sender);
      assert BySender(a + b, sender) == head + BySender(a[1..] + b, sender);
      assert BySender(a, sender) == head + BySender(a[1..], sender);
    }
  }

  lemma WritesCommute(s: StateValue, t: Transaction, u: Transaction)
    requires t.sender != u.sender && t.key != u.key
    ensures Write(Write(s, t), u) == Write(Write(s, u), t)
  {
    assert s.data[t.key := t.value][u.key := u.value] == s.data[u.key := u.value][t.key := t.value];
    assert Write(Write(s, t), u).seen == Write(Write(s, u), t).seen;
  }

  lemma StrangersDoNotMatter(c: Crypto, s: StateValue, t: Transaction, u: Transaction)
    requires t.sender != u.sender
    ensures CanApply(c, Write(s, t), u) == CanApply(c, s, u)
  {
  }

  /** Transactions of different senders touch different keys and nonces, so they commute. */
  lemma Commute(c: Crypto, s: StateValue, t: Transaction, u: Transaction)
    requires t.sender != u.sender
    ensures ApplyTx(c, ApplyTx(c, s, t), u) == ApplyTx(c, ApplyTx(c, s, u), t)
  {
    StrangersDoNotMatter(c, s, t, u);
    StrangersDoNotMatter(c, s, u, t);
    if CanApply(c, s, t) && CanApply(c, s, u) {
      assert t.key != u.key;
      WritesCommute(s, t, u);
    }
    hide Write, CanApply;
  }

  lemma {:induction false} MoveToFront(c: Crypto, s: StateValue, before: seq<Transaction>, t: Transaction)
    requires forall u :: u in before ==> u.sender != t.sender
    ensures ApplyAll(c, s, before + [t]) == ApplyAll(c, ApplyTx(c, s, t), before)
  {
    assert (before + [t])[..|before|] == before;
    if before != [] {
      var k := |before| - 1;
      assert before[k] in before;
      var s' := ApplyAll(c, s, before[..k]);
      assert (before[..k] + [t])[..k] == before[..k];
      Commute(c, s', before[k], t);
      MoveToFront(c, s, before[..k], t);
    }
  }

  /** The first transaction of a sender: what stands before it is all from others. */
  lemma {:induction false} FirstOf(txs: seq<Transaction>, sender: Id) returns (k: nat)
    requires BySender(txs, sender) != []
    ensures k < |txs| && txs[k] == BySender(txs, sender)[0]
    ensures forall u :: u in txs[..k] ==> u.sender != sender
  {
    if txs[0].sender == sender {
      k := 0;
    } else {
      var j := FirstOf(txs[1..], sender);
      k := j + 1;
      assert txs[..k] == [txs[0]] + txs[1..][..j];
    }
  }

  lemma {:induction false} BySenderOfOthers(txs: seq<Transaction>, sender: Id)
    requires forall u :: u in txs ==> u.sender != sender
    ensures BySender(txs, sender) == []
  {
    if txs != [] { BySenderOfOthers(txs[1..], sender); }
  }

  lemma BySenderWithout(before: seq<Transaction>, t: Transaction, after: seq<Transaction>, sender: Id)
    requires forall u :: u in before ==> u.sender != t.sender
    ensures BySender(before + [t] + after, sender) ==
            (if sender == t.sender then [t] else []) + BySender(before + after, sender)
  {
    BySenderConcat(before + [t], after, sender);
    BySenderConcat(before, [t], sender);
    BySenderConcat(before, after, sender);
    assert [t][1..] == [];
    if sender == t.sender { BySenderOfOthers(before, sender); }
  }

  lemma PullToFront(c: Crypto, s: StateValue, before: seq<Transaction>, t: Transaction, after: seq<Transaction>)
    requires forall u :: u in before ==> u.sender != t.sender
    ensures ApplyAll(c, s, before + [t] + after) == ApplyAll(c, ApplyTx(c, s, t), before + after)
  {
    ApplyAllConcat(c, s, before + [t], after);
    MoveToFront(c, s, before, t);
    ApplyAllConcat(c, ApplyTx(c, s, t), before, after);
  }

  ghost predicate SameBySender(a: seq<Transaction>, b: seq<Transaction>) {
    forall sender :: BySender(a, sender) == BySender(b, sender)
  }

  lemma CancelPrefix<T>(r: seq<T>, x: seq<T>, y: seq<T>)
    requires r + x == r + y
    ensures x == y
  {
    assert (r + x)[|r|..] == x && (r + y)[|r|..] == y;
  }

  lemma DropFirstOf(a: seq<Transaction>, before: seq<Transaction>, after: seq<Transaction>, sender: Id)
    requires a != [] && BySender(a, sender) == BySender(before + [a[0]] + after, sender)
    requires forall u :: u in before ==> u.sender != a[0].sender
    ensures BySender(a[1..], sender) == BySender(before + after, sender)
  {
    BySenderWithout(before, a[0], after, sender);
    CancelPrefix(if sender == a[0].sender then [a[0]] else [], BySender(a[1..], sender), BySender(before + after, sender));
  }

  lemma DropFirst(a: seq<Transaction>, b: seq<Transaction>) returns (before: seq<Transaction>, after: seq<Transaction>)
    requires a != [] && SameBySender(a, b)
    ensures b == before + [a[0]] + after
    ensures forall u :: u in before ==> u.sender != a[0].sender
    ensures SameBySender(a[1..], before + after)
  {
    assert BySender(a, a[0].sender) == BySender(b, a[0].sender);
    var k := FirstOf(b, a[0].sender);
    before, after := b[..k], b[k + 1..];
    assert b == before + [a[0]] + after;
    forall sender ensures BySender(a[1..], sender) == BySender(before + after, sender) {
      assert BySender(a, sender) == BySender(b, sender);
      DropFirstOf(a, before, after, sender);
    }
  }

  /** Only the order within each sender matters: any interleaving gives the same state. */
  lemma {:induction false} InterleavingIndependent(c: Crypto, s: StateValue, a: seq<Transaction>, b: seq<Transaction>)
    requires SameBySender(a, b)
    ensures ApplyAll(c, s, a) == ApplyAll(c, s, b)
    decreases |a|
  {
    if a == [] {
      assert b == [] || BySender(a, b[0].sender) == BySender(b, b[0].sender);
    } else {
      var before, after := DropFirst(a, b);
      InterleavingIndependent(c, ApplyTx(c, s, a[0]), a[1..], before + after);
      ApplyFirst(c, s, a);
      PullToFront(c, s, before, a[0], after);
    }
  }

  lemma ApplyFirst(c: Crypto, s: StateValue, txs: seq<Transaction>)
    requires txs != []
    ensures ApplyAll(c, s, txs) == ApplyAll(c, ApplyTx(c, s, txs[0]), txs[1..])
  {
    assert txs == [txs[0]] + txs[1..];
    ApplyAllConcat(c, s, [txs[0]], txs[1..]);
    assert [txs[0]][..0] == [];
  }

  // ---- the mutable state ----

  class State {
    var data: map<string, string>
    var seenNonces: map<Id, set<int>>

    function View(): StateValue
      reads this
    {
      StateValue(data, seenNonces)
    }

    constructor ()
      ensures View() == EmptyState
    {
      data, seenNonces := map[], map[];
    }

    method Clone() returns (copy: State)
      ensures fresh(copy) && copy.View() == View()
    {
      copy := new State();
      copy.data, copy.seenNonces := data, seenNonces;
    }

    method StateRootOf(c: Crypto) returns (root: Hash)
      ensures root == StateRoot(c, View())
      ensures c.CollisionFree() ==> forall other: StateValue :: StateRoot(c, other) == root <==> other.data == data
    {
      if c.CollisionFree() {
        forall other: StateValue ensures StateRoot(c, other) == StateRoot(c, View()) <==> other.data == data {
          SameRootIff(c, other, View());
        }
      }
      root := c.hash(DataObject(data));
    }

    method CanApplyTo(c: Crypto, tx: Transaction) returns (ok: bool)
      ensures ok == CanApply(c, View(), tx)
      ensures ok <==>
        && tx.signature.Some? && c.check(tx.sender, TxDomain(tx.Payload()), tx.signature.value)
        && Owner(tx.key) == Some(tx.sender) && !(tx.sender in seenNonces && tx.nonce in seenNonces[tx.sender])
    {
      if !c.TxVerifies(tx) { return false; }
      var owner := Owner(tx.key);
      if owner.None? || owner.value != tx.sender { return false; }
      if tx.sender in seenNonces && tx.nonce in seenNonces[tx.sender] { return false; }
      return true;
    }

    method Apply(c: Crypto, tx: Transaction) returns (applied: bool)
      modifies this
      ensures applied == CanApply(c, old(View()), tx)
      ensures View() == ApplyTx(c, old(View()), tx)
      ensures data == if applied then old(data)[tx.key := tx.value] else old(data)
      ensures applied ==> tx.sender in seenNonces && tx.nonce in seenNonces[tx.sender]
    {
      applied := CanApplyTo(c, tx);
      if applied {
        data := data[tx.key := tx.value];
        var nonces := if tx.sender in seenNonces then seenNonces[tx.sender] else {};
        seenNonces := seenNonces[tx.sender := nonces + {tx.nonce}];
      }
    }

    /** Works on a copy: this state is untouched. */
    method ApplyAllTo(c: Crypto, txs: seq<Transaction>) returns (result: State)
      ensures fresh(result) && result.View() == ApplyAll(c, View(), txs)
    {
      result := Clone();
      for i := 0 to |txs|
        invariant fresh(result) && result.View() == ApplyAll(c, View(), txs[..i])
      {
        var _ := result.Apply(c, txs[i]);
        assert txs[..i + 1][..i] == txs[..i];
      }
      assert txs[..|txs|] == txs;
    }
  }
}
