/** The mutable state of one accelerator worker handler: the reference-counted
    per-key locks, the slot semaphore and the in-memory receipt store.  A Go
    `*keyLock` is an index into `locks`, the sequence of every lock allocated. */
module WorkerHandler {
  import opened Wrappers

  datatype Receipt = Receipt(digest: string, response: string)

  datatype KeyLock = KeyLock(refs: int, locked: bool)

  datatype View = View(
    maxConcurrent: int,
    keyLocks: map<string, nat>,
    locks: seq<KeyLock>,
    slots: nat,
    receipts: map<string, Receipt>)

  function Limit(maxConcurrent: int): (n: nat)
    ensures n >= 1 && n >= maxConcurrent && (n == 1 || n == maxConcurrent)
  {
    if maxConcurrent < 1 then 1 else maxConcurrent
  }

  ghost predicate InRange(v: View) {
    forall k :: k in v.keyLocks ==> v.keyLocks[k] < |v.locks|
  }

  /** The `lockMu` section of lockKey: find or create the lock and take a reference. */
  function Register(v: View, key: string): (View, nat)
    requires InRange(v)
  {
    var known := key in v.keyLocks;
    var id := if known then v.keyLocks[key] else |v.locks|;
    var locks := if known then v.locks else v.locks + [KeyLock(0, false)];
    (v.(keyLocks := v.keyLocks[key := id], locks := locks[id := locks[id].(refs := locks[id].refs + 1)]), id)
  }

  function SetLocked(v: View, id: nat, locked: bool): View
    requires id < |v.locks|
  {
    v.(locks := v.locks[id := v.locks[id].(locked := locked)])
  }

  /** The `lockMu` section of the unlock function: the entry goes when the last reference does. */
  function Deregister(v: View, key: string, id: nat): View
    requires id < |v.locks|
  {
    var refs := v.locks[id].refs - 1;
    v.(locks := v.locks[id := v.locks[id].(refs := refs)],
       keyLocks := if refs == 0 then v.keyLocks - {key} else v.keyLocks)
  }

  function Lookup(v: View, key: string): Option<Receipt> {
    if key in v.receipts then Some(v.receipts[key]) else None
  }

  /** MemoryReceiptStore.Put: refuses another digest, otherwise stores the receipt,
      replacing one that carries the same digest. */
  function Commit(v: View, key: string, receipt: Receipt): (View, bool) {
    if key in v.receipts && v.receipts[key].digest != receipt.digest then (v, false)
    else (v.(receipts := v.receipts[key := receipt]), true)
  }

  class Handler {
    const maxConcurrent: int
    var keyLocks: map<string, nat>
    var locks: seq<KeyLock>
    var slots: nat
    var receipts: map<string, Receipt>

    ghost function Contents(): View
      reads this
    {
      View(maxConcurrent, keyLocks, locks, slots, receipts)
    }

    ghost predicate Valid()
      reads this
    {
      InRange(Contents())
    }

    constructor (maxConcurrent: int)
      ensures Valid() && Contents() == View(maxConcurrent, map[], [], 0, map[])
    {
      this.maxConcurrent := maxConcurrent;
      keyLocks, locks, slots, receipts := map[], [], 0, map[];
    }

    method RegisterKey(key: string) returns (id: nat)
      requires Valid()
      modifies this
      ensures Valid() && (Contents(), id) == Register(old(Contents()), key)
    {
      if key in keyLocks {
        id := keyLocks[key];
      } else {
        id := |locks|;
        locks := locks + [KeyLock(0, false)];
      }
      keyLocks := keyLocks[key := id];
      locks := locks[id := locks[id].(refs := locks[id].refs + 1)];
    }

    method DeregisterKey(key: string, id: nat)
      requires Valid() && id < |locks|
      modifies this
      ensures Valid() && Contents() == Deregister(old(Contents()), key, id)
    {
      locks := locks[id := locks[id].(refs := locks[id].refs - 1)];
      if locks[id].refs == 0 {
        keyLocks := keyLocks - {key};
      }
    }

    /** Takes a slot if the semaphore has room; the caller blocks otherwise. */
    method TryAcquireSlot() returns (taken: bool)
      requires Valid()
      modifies this
      ensures Valid() && taken == (old(slots) < Limit(maxConcurrent))
      ensures Contents() == old(Contents()).(slots := if taken then old(slots) + 1 else old(slots))
    {
      taken := slots < Limit(maxConcurrent);
      if taken {
        slots := slots + 1;
      }
    }

    method ReleaseSlot()
      requires Valid() && slots > 0
      modifies this
      ensures Valid() && Contents() == old(Contents()).(slots := old(slots) - 1)
    {
      slots := slots - 1;
    }

    method Put(key: string, receipt: Receipt) returns (ok: bool)
      requires Valid()
      modifies this
      ensures Valid() && (Contents(), ok) == Commit(old(Contents()), key, receipt)
      ensures ok <==> key !in old(receipts) || old(receipts)[key].digest == receipt.digest
      ensures receipts == if ok then old(receipts)[key := receipt] else old(receipts)
    {
      if key in receipts && receipts[key].digest != receipt.digest {
        return false;
      }
      receipts := receipts[key := receipt];
      return true;
    }
  }
}
