/** The wheel of retransmission timers (delay_set.go). */
module TimeWheels {
  import opened Collections
  import opened Quotients

  /** `(current + slots) % slotNum` for arguments within one turn of the wheel. */
  function Around(x: nat, n: nat): (r: nat)
    requires x < 2 * n
    ensures r < n
  {
    if x < n then x else x - n
  }

  lemma AroundIsRemainder(x: nat, n: nat)
    requires x < 2 * n
    ensures Around(x, n) == x % n
  {
    QuotientIsUnique(x, n, if x < n then 0 else 1, Around(x, n));
  }

  /** Slots of items by key; `current` is the slot that fires at the next tick. */
  datatype Wheel<K(==), V> = Wheel(interval: nat, slots: seq<map<K, V>>, current: nat) {

    predicate Valid() {
      interval > 0 && current < |slots|
    }

    /** How many slots ahead an item is put: a delay at or beyond the full turn comes back to the current slot. */
    function Ahead(delay: nat): (n: nat)
      requires Valid()
      ensures n <= |slots|
    {
      DelayWithinTurn(delay, interval, |slots|);
      (if delay > |slots| * interval then |slots| * interval else delay) / interval
    }

    function Put(key: K, value: V, delay: nat): Wheel<K, V>
      requires Valid()
    {
      var i := Around(current + Ahead(delay), |slots|);
      this.(slots := slots[i := slots[i][key := value]])
    }

    function Retain(shouldRemove: K -> bool): Wheel<K, V> {
      this.(slots := seq(|slots|, (i: int) requires 0 <= i < |slots| => Kept(slots[i], shouldRemove)))
    }

    /** Deletes the key from the lowest slot that has it, and from no other. */
    function Remove(key: K): Wheel<K, V> {
      var i := Holder(slots, key);
      if i < |slots| then this.(slots := slots[i := slots[i] - {key}]) else this
    }

    /** What fires at the next tick. */
    function Firing(): map<K, V>
      requires Valid()
    {
      slots[current]
    }

    function Tick(): Wheel<K, V>
      requires Valid()
    {
      this.(slots := slots[current := map[]], current := Around(current + 1, |slots|))
    }

    /** The deadline table: the value that is due for `key` n ticks from now. */
    function Due(key: K, n: nat): Option<V>
      requires Valid()
    {
      if 1 <= n <= |slots| then
        var slot := slots[Around(current + n - 1, |slots|)];
        if key in slot then Some(slot[key]) else None
      else None
    }
  }

  function Kept<K(==), V>(slot: map<K, V>, shouldRemove: K -> bool): map<K, V> {
    map k | k in slot && !shouldRemove(k) :: slot[k]
  }

  /** The lowest slot that has the key. */
  function Holder<K(==), V>(slots: seq<map<K, V>>, key: K): (i: nat)
    ensures i <= |slots| && (forall j :: 0 <= j < i ==> key !in slots[j]) && (i < |slots| ==> key in slots[i])
  {
    if slots == [] || key in slots[0] then 0 else 1 + Holder(slots[1..], key)
  }

  lemma QuotientBelow(d: nat, interval: nat, n: nat)
    requires interval > 0 && d < n * interval
    ensures d / interval < n
  {
    var q := d / interval;
    assert d == q * interval + d % interval;
    if n <= q {
      TimesMonotone(n, q, interval);
    }
  }

  lemma DelayWithinTurn(delay: nat, interval: nat, n: nat)
    requires interval > 0
    ensures (if delay > n * interval then n * interval else delay) / interval ==
            if delay < n * interval then delay / interval else n
    ensures delay < n * interval ==> delay / interval < n
  {
    QuotientIsUnique(n * interval, interval, n, 0);
    if delay < n * interval {
      QuotientBelow(delay, interval, n);
    }
  }

  // ---------------------------------------------------------------- refinement of the deadline table

  /** The number of ticks after which an item put with this delay fires. */
  function DueIn<K, V>(w: Wheel<K, V>, delay: nat): nat
    requires w.Valid()
  {
    if delay < |w.slots| * w.interval then delay / w.interval + 1 else 1
  }

  /** Distinct distances within one turn are distinct slots. */
  lemma SlotsAreDistinct(current: nat, n: nat, a: nat, b: nat)
    requires current < n && a < n && b < n
    ensures Around(current + a, n) == Around(current + b, n) <==> a == b
  {
  }

  /**
   * A put sets exactly one entry of the table. The entry is due after floor(delay / interval) + 1 ticks if and
   * only if the delay is shorter than a full turn; any longer delay is due at the very next tick.
   */
  lemma PutSetsDeadline<K, V>(w: Wheel<K, V>, key: K, value: V, delay: nat)
    requires w.Valid()
    ensures w.Put(key, value, delay).Valid()
    ensures forall k: K, n: nat ::
              w.Put(key, value, delay).Due(k, n) ==
              if k == key && n == DueIn(w, delay) then Some(value) else w.Due(k, n)
    ensures DueIn(w, delay) == delay / w.interval + 1 <==> delay < |w.slots| * w.interval
  {
    var size := |w.slots|;
    DelayWithinTurn(delay, w.interval, size);
    var a := DueIn(w, delay) - 1;
    assert Around(w.current + w.Ahead(delay), size) == Around(w.current + a, size);
    forall k: K, n: nat
      ensures w.Put(key, value, delay).Due(k, n) ==
              if k == key && n == DueIn(w, delay) then Some(value) else w.Due(k, n)
    {
      if 1 <= n <= size {
        SlotsAreDistinct(w.current, size, a, n - 1);
      }
    }
    if delay >= size * w.interval {
      LongDelay(delay, w.interval, size);
    }
  }

  lemma LongDelay(delay: nat, interval: nat, n: nat)
    requires interval > 0 && n > 0 && delay >= n * interval
    ensures delay / interval >= 1
  {
    var q := delay / interval;
    assert delay == q * interval + delay % interval;
    TimesMonotone(1, n, interval);
  }

  /** A tick fires what is due after one tick, and every other deadline comes one tick closer. */
  lemma TickFiresTheDue<K, V>(w: Wheel<K, V>, key: K)
    requires w.Valid()
    ensures w.Tick().Valid()
    ensures w.Due(key, 1) == if key in w.Firing() then Some(w.Firing()[key]) else None
    ensures forall n: nat :: n >= 1 ==> w.Tick().Due(key, n) == w.Due(key, n + 1)
  {
    var size := |w.slots|;
    forall n: nat | n >= 1 ensures w.Tick().Due(key, n) == w.Due(key, n + 1) {
      if n < size {
        assert Around(Around(w.current + 1, size) + n - 1, size) == Around(w.current + n, size) != w.current;
      } else if n == size {
        assert Around(Around(w.current + 1, size) + n - 1, size) == w.current;
      }
    }
  }

  /** Retain deletes every entry of each matching key, in all slots, and nothing else. */
  lemma RetainRemovesMatching<K, V>(w: Wheel<K, V>, shouldRemove: K -> bool)
    requires w.Valid()
    ensures w.Retain(shouldRemove).Valid()
    ensures forall k: K, n: nat :: w.Retain(shouldRemove).Due(k, n) == if shouldRemove(k) then None else w.Due(k, n)
  {
  }

  /** Remove deletes at most one entry of its key: the one in the lowest slot. Other keys keep all theirs. */
  lemma RemoveDeletesOne<K, V>(w: Wheel<K, V>, key: K)
    requires w.Valid()
    ensures w.Remove(key).Valid()
    ensures forall k: K, n: nat :: k != key ==> w.Remove(key).Due(k, n) == w.Due(k, n)
    ensures forall n: nat :: 1 <= n <= |w.slots| ==>
              w.Remove(key).Due(key, n) ==
              if Around(w.current + n - 1, |w.slots|) == Holder(w.slots, key) then None else w.Due(key, n)
  {
  }

  /** So a key is gone after Remove exactly when at most one slot held it. */
  lemma RemoveIsCompleteIff<K, V>(w: Wheel<K, V>, key: K)
    requires w.Valid()
    ensures (forall i :: 0 <= i < |w.slots| ==> key !in w.Remove(key).slots[i]) <==>
            (forall i, j :: 0 <= i < j < |w.slots| ==> key !in w.slots[i] || key !in w.slots[j])
  {
    var h := Holder(w.slots, key);
    var r := w.Remove(key);
    if forall i, j :: 0 <= i < j < |w.slots| ==> key !in w.slots[i] || key !in w.slots[j] {
      forall i | 0 <= i < |w.slots| ensures key !in r.slots[i] {
        if h < i {
          assert key !in w.slots[h] || key !in w.slots[i];
        }
      }
    }
    if forall i :: 0 <= i < |w.slots| ==> key !in r.slots[i] {
      forall i, j | 0 <= i < j < |w.slots| ensures key !in w.slots[i] || key !in w.slots[j] {
        assert key !in r.slots[i] && key !in r.slots[j];
      }
    }
  }

  // ---------------------------------------------------------------- any sequence of operations

  datatype Operation<!K(==), V> =
    | PutOp(key: K, value: V, delay: nat)
    | RetainOp(shouldRemove: K -> bool)
    | RemoveOp(key: K)
    | TickOp

  predicate Spares<K(==), V>(op: Operation<K, V>, key: K) {
    match op
    case PutOp(k, _, _) => k != key
    case RetainOp(shouldRemove) => !shouldRemove(key)
    case RemoveOp(k) => k != key
    case TickOp => true
  }

  function After<K(==), V>(w: Wheel<K, V>, op: Operation<K, V>): Wheel<K, V>
    requires w.Valid()
  {
    match op
    case PutOp(key, value, delay) => w.Put(key, value, delay)
    case RetainOp(shouldRemove) => w.Retain(shouldRemove)
    case RemoveOp(key) => w.Remove(key)
    case TickOp => w.Tick()
  }

  lemma AfterIsValid<K, V>(w: Wheel<K, V>, op: Operation<K, V>)
    requires w.Valid()
    ensures After(w, op).Valid()
  {
  }

  /** The values that fire for `key` at successive ticks of a run; None where nothing fires for it. */
  function Fires<K(==), V>(w: Wheel<K, V>, ops: seq<Operation<K, V>>, key: K): seq<Option<V>>
    requires w.Valid()
    decreases |ops|
  {
    if ops == [] then []
    else
      AfterIsValid(w, ops[0]);
      (if ops[0].TickOp? then [if key in w.Firing() then Some(w.Firing()[key]) else None] else []) +
      Fires(After(w, ops[0]), ops[1..], key)
  }

  /**
   * An entry fires exactly at its deadline: whatever else happens on the wheel, tick n of the run fires what was due in
   * n ticks.
   */
  lemma {:induction false} FiresAtDeadline<K, V>(w: Wheel<K, V>, ops: seq<Operation<K, V>>, key: K)
    requires w.Valid() && forall i :: 0 <= i < |ops| ==> Spares(ops[i], key)
    ensures forall i :: 0 <= i < |Fires(w, ops, key)| ==> Fires(w, ops, key)[i] == w.Due(key, i + 1)
    decreases |ops|
  {
    if ops != [] {
      var w1 := After(w, ops[0]);
      AfterIsValid(w, ops[0]);
      FiresAtDeadline(w1, ops[1..], key);
      var fires, rest := Fires(w, ops, key), Fires(w1, ops[1..], key);
      match ops[0]
      case TickOp =>
        TickFiresTheDue(w, key);
        forall i | 0 <= i < |fires| ensures fires[i] == w.Due(key, i + 1) {
          if i > 0 {
            assert fires[i] == rest[i - 1] == w1.Due(key, i);
          }
        }
      case PutOp(k, value, delay) => PutSetsDeadline(w, k, value, delay);
      case RetainOp(shouldRemove) => RetainRemovesMatching(w, shouldRemove);
      case RemoveOp(k) => RemoveDeletesOne(w, k);
    }
  }

  /**
   * A timer put for a key that had none fires once, at tick floor(delay / interval) + 1 when its delay is shorter than
   * a turn.
   */
  lemma PutFiresOnce<K, V>(w: Wheel<K, V>, key: K, value: V, delay: nat, ops: seq<Operation<K, V>>)
    requires w.Valid() && delay < |w.slots| * w.interval
    requires (forall n: nat :: w.Due(key, n) == None) && forall i :: 0 <= i < |ops| ==> Spares(ops[i], key)
    ensures w.Put(key, value, delay).Valid()
    ensures var fires := Fires(w.Put(key, value, delay), ops, key);
            forall i :: 0 <= i < |fires| ==> fires[i] == if i == delay / w.interval then Some(value) else None
  {
    PutSetsDeadline(w, key, value, delay);
    FiresAtDeadline(w.Put(key, value, delay), ops, key);
  }

  // ---------------------------------------------------------------- the object

  class TimeWheel<K(==), V> {
    const interval: nat
    const slotNum: nat
    var slots: seq<map<K, V>>
    var current: nat

    function State(): Wheel<K, V>
      reads this
    {
      Wheel(interval, slots, current)
    }

    predicate Valid()
      reads this
    {
      State().Valid() && |slots| == slotNum
    }

    constructor (interval: nat, slotNum: nat)
      requires interval > 0 && slotNum > 0
      ensures Valid() && current == 0 && slots == seq(slotNum, _ => map[])
    {
      this.interval, this.slotNum, current := interval, slotNum, 0;
      slots := seq(slotNum, _ => map[]);
    }

    method Put(key: K, value: V, delay: nat)
      requires Valid()
      modifies this
      ensures Valid() && State() == old(State()).Put(key, value, delay)
    {
      PutSetsDeadline(State(), key, value, delay);
      var bounded := if delay > slotNum * interval then slotNum * interval else delay;
      var ahead := bounded / interval;
      assert ahead == State().Ahead(delay);
      AroundIsRemainder(current + ahead, slotNum);
      var index := (current + ahead) % slotNum;
      slots := slots[index := slots[index][key := value]];
    }

    method Retain(shouldRemove: K -> bool)
      requires Valid()
      modifies this
      ensures Valid() && State() == old(State()).Retain(shouldRemove)
    {
      for i := 0 to slotNum
        invariant Valid() && current == old(current)
        invariant forall j :: 0 <= j < slotNum ==>
                  slots[j] == if j < i then Kept(old(slots)[j], shouldRemove) else old(slots)[j]
      {
        var slot := slots[i];
        slots := slots[i := map k | k in slot && !shouldRemove(k) :: slot[k]];
      }
    }

    method Remove(key: K)
      requires Valid()
      modifies this
      ensures Valid() && State() == old(State()).Remove(key)
    {
      for i := 0 to slotNum
        invariant Valid() && slots == old(slots) && current == old(current)
        invariant forall j :: 0 <= j < i ==> key !in slots[j]
      {
        if key in slots[i] {
          slots := slots[i := slots[i] - {key}];
          return;
        }
      }
    }

    /** One turn of the wheel's loop; `fired` is what its callback is called with. */
    method Tick() returns (fired: map<K, V>)
      requires Valid()
      modifies this
      ensures Valid() && State() == old(State()).Tick() && fired == old(State()).Firing()
    {
      TickFiresTheDueValid(State());
      fired := slots[current];
      slots := slots[current := map[]];
      AroundIsRemainder(current + 1, slotNum);
      current := (current + 1) % slotNum;
    }
  }

  lemma TickFiresTheDueValid<K, V>(w: Wheel<K, V>)
    requires w.Valid()
    ensures w.Tick().Valid()
  {
  }
}
