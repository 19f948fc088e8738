/** A hash table with linear probing, where a removed key leaves a tomb. */
module HashSets {
  import opened Arithmetic
  import opened Powers
  import opened Wrappers

  datatype Slot = Slot(isTomb: bool, key: Option<int>)

  /** A slot that never held a key: probing stops there. */
  predicate Unused(s: Slot) { s.key == None && !s.isTomb }

  const EMPTY := Slot(false, None)

  // The slot that is tried after `d` others.
  function At(n: int, home: int, d: int): (i: int)
    requires n > 0
    ensures 0 <= i < n
  {
    (home + d) % n
  }

  // ----- The keys in a table ----------------------------------------------------------

  function KeyOf(s: Slot): multiset<int> { if s.key.Some? then multiset{s.key.value} else multiset{} }

  /** The keys in the table, each as often as it was put in. */
  function Live(slots: seq<Slot>): multiset<int> {
    if slots == [] then multiset{} else KeyOf(slots[0]) + Live(slots[1..])
  }

  lemma {:induction false} LiveUpdate(slots: seq<Slot>, i: int, s: Slot)
    requires 0 <= i < |slots|
    ensures Live(slots[i := s]) + KeyOf(slots[i]) == Live(slots) + KeyOf(s)
    decreases |slots|
  {
    var t := slots[i := s];
    if i == 0 {
      assert t[1..] == slots[1..];
    } else {
      assert t[1..] == slots[1..][i - 1 := s];
      LiveUpdate(slots[1..], i - 1, s);
      Regroup(KeyOf(slots[0]), Live(t[1..]), KeyOf(slots[i]), Live(slots[1..]), KeyOf(s));
    }
  }

  lemma Regroup(a: multiset<int>, x: multiset<int>, y: multiset<int>, z: multiset<int>, w: multiset<int>)
    requires x + y == z + w
    ensures (a + x) + y == (a + z) + w
  {
    assert (a + x) + y == a + (x + y) == a + (z + w) == (a + z) + w;
  }

  lemma Less(x: multiset<int>, y: multiset<int>, k: int)
    ensures x + multiset{k} == y + multiset{} ==> x == y - multiset{k}
    ensures k !in y ==> y - multiset{k} == y
  {
    if x + multiset{k} == y + multiset{} {
      assert (x + multiset{k}) - multiset{k} == x;
      assert y + multiset{} == y;
    }
  }

  lemma {:induction false} LiveHas(slots: seq<Slot>, k: int)
    ensures k in Live(slots) <==> exists i | 0 <= i < |slots| :: slots[i].key == Some(k)
    decreases |slots|
  {
    if slots != [] {
      LiveHas(slots[1..], k);
      if k in Live(slots) && slots[0].key != Some(k) {
        var i :| 0 <= i < |slots[1..]| && slots[1..][i].key == Some(k);
        assert slots[i + 1].key == Some(k);
      }
      if i :| 0 <= i < |slots| && slots[i].key == Some(k) {
        if i > 0 { assert slots[1..][i - 1].key == Some(k); }
      }
    }
  }

  lemma {:induction false} LiveBound(slots: seq<Slot>)
    ensures |Live(slots)| <= |slots|
    ensures |Live(slots)| < |slots| ==> exists i | 0 <= i < |slots| :: slots[i].key == None
    decreases |slots|
  {
    if slots != [] {
      LiveBound(slots[1..]);
      if slots[0].key.Some? && |Live(slots)| < |slots| {
        var i :| 0 <= i < |slots[1..]| && slots[1..][i].key == None;
        assert slots[i + 1].key == None;
      }
    }
  }

  lemma {:induction false} LiveEmpty(slots: seq<Slot>)
    requires forall i | 0 <= i < |slots| :: slots[i].key == None
    ensures Live(slots) == multiset{}
    decreases |slots|
  {
    if slots != [] { LiveEmpty(slots[1..]); }
  }

  // ----- Probing ----------------------------------------------------------------------

  /** The number of slots with a key from `home` on, counting from the `d`th; at most the
      number of slots. */
  function FirstNull(slots: seq<Slot>, home: int, d: nat): (r: nat)
    requires |slots| > 0 && d <= |slots|
    ensures d <= r <= |slots|
    ensures forall e | d <= e < r :: slots[At(|slots|, home, e)].key.Some?
    ensures r < |slots| ==> slots[At(|slots|, home, r)].key == None
    decreases |slots| - d
  {
    if d == |slots| || slots[At(|slots|, home, d)].key == None then d else FirstNull(slots, home, d + 1)
  }

  /** Where a search for `k` stops. */
  predicate Stops(slots: seq<Slot>, home: int, k: int, d: int)
    requires |slots| > 0
  {
    var s := slots[At(|slots|, home, d)];
    s.key == Some(k) || Unused(s)
  }

  function FirstStop(slots: seq<Slot>, home: int, k: int, d: nat): (r: nat)
    requires |slots| > 0 && d <= |slots|
    ensures d <= r <= |slots|
    ensures forall e | d <= e < r :: !Stops(slots, home, k, e)
    ensures r < |slots| ==> Stops(slots, home, k, r)
    decreases |slots| - d
  {
    if d == |slots| || Stops(slots, home, k, d) then d else FirstStop(slots, home, k, d + 1)
  }

  /** Probing from `home` reaches every slot. */
  lemma Reaches(n: int, home: int, i: int) returns (d: nat)
    requires 0 <= i < n && 0 <= home < n
    ensures d < n && At(n, home, d) == i
  {
    d := if home <= i then i - home else i + n - home;
    AtIs(n, home, d);
  }

  lemma AtIs(n: int, home: int, d: int)
    requires 0 <= home < n && 0 <= d < n
    ensures At(n, home, d) == if home + d < n then home + d else home + d - n
  {
    if home + d >= n { Wraps(home + d, n); }
  }

  lemma Wraps(x: int, n: int)
    requires n <= x < 2 * n
    ensures x % n == x - n
  {
    var q := x / n;
    assert x == q * n + x % n;
    assert q >= 2 ==> q * n >= 2 * n;
    assert q <= 0 ==> q * n <= 0;
  }

  /** The search for a key stops exactly when the key is there or some slot was never used. */
  lemma StopsIff(slots: seq<Slot>, home: int, k: int)
    requires 0 <= home < |slots|
    ensures (exists d: nat :: Stops(slots, home, k, d))
            <==> k in Live(slots) || exists i | 0 <= i < |slots| :: Unused(slots[i])
  {
    hide At;
    LiveHas(slots, k);
    if k in Live(slots) {
      var i :| 0 <= i < |slots| && slots[i].key == Some(k);
      var d := Reaches(|slots|, home, i);
      assert Stops(slots, home, k, d);
    } else if i :| 0 <= i < |slots| && Unused(slots[i]) {
      var d := Reaches(|slots|, home, i);
      assert Stops(slots, home, k, d);
    }
  }

  // ----- The invariant ----------------------------------------------------------------

  /** From `home` the next `d` slots have all been used. */
  ghost predicate UsedPath(slots: seq<Slot>, home: int, d: int)
    requires |slots| > 0
  {
    forall e | 0 <= e < d :: !Unused(slots[At(|slots|, home, e)])
  }

  ghost predicate FoundAt(slots: seq<Slot>, home: int, d: int, i: int)
    requires |slots| > 0
  {
    0 <= d < |slots| && At(|slots|, home, d) == i && UsedPath(slots, home, d)
  }

  /** The key in a slot is reached from its home without passing a slot never used. */
  ghost predicate Reachable(slots: seq<Slot>, hash: int -> nat, i: int)
    requires 0 <= i < |slots|
  {
    slots[i].key.Some? ==> exists d :: FoundAt(slots, hash(slots[i].key.value) % |slots|, d, i)
  }

  ghost predicate TableOk(slots: seq<Slot>, hash: int -> nat) {
    |slots| > 0 && forall i {:trigger Reachable(slots, hash, i)} | 0 <= i < |slots| :: Reachable(slots, hash, i)
  }

  /** A change of one slot that leaves it used. */
  lemma UpdateOk(slots: seq<Slot>, hash: int -> nat, i: int, s: Slot)
    requires TableOk(slots, hash) && 0 <= i < |slots| && !Unused(s)
    requires s.key.Some? ==> exists d :: FoundAt(slots, hash(s.key.value) % |slots|, d, i)
    ensures TableOk(slots[i := s], hash)
  {
    hide At;
    var t := slots[i := s];
    forall j | 0 <= j < |t| ensures Reachable(t, hash, j) {
      assert Reachable(slots, hash, j);
      if t[j].key.Some? {
        var home := hash(t[j].key.value) % |t|;
        var d :| FoundAt(slots, home, d, j);
        assert FoundAt(t, home, d, j);
      }
    }
  }

  /** A search finds the key if it is there, and a slot never used if it is not. */
  lemma SearchRight(slots: seq<Slot>, hash: int -> nat, k: int)
    requires TableOk(slots, hash)
    requires k in Live(slots) || exists i | 0 <= i < |slots| :: Unused(slots[i])
    ensures var home := hash(k) % |slots|;
            var d := FirstStop(slots, home, k, 0);
            d < |slots| && (slots[At(|slots|, home, d)].key == Some(k) <==> k in Live(slots))
  {
    hide At;
    LiveHas(slots, k);
    var home := hash(k) % |slots|;
    var d := FirstStop(slots, home, k, 0);
    if k in Live(slots) {
      var i :| 0 <= i < |slots| && slots[i].key == Some(k);
      assert Reachable(slots, hash, i);
      var e :| FoundAt(slots, home, e, i);
      assert Stops(slots, home, k, e);
      assert d <= e;
      assert d < e ==> !Unused(slots[At(|slots|, home, d)]);
    } else {
      var i :| 0 <= i < |slots| && Unused(slots[i]);
      var e := Reaches(|slots|, home, i);
      assert Stops(slots, home, k, e);
    }
  }

  // ----- Operations on the table ------------------------------------------------------

  function Inserted(slots: seq<Slot>, hash: int -> nat, k: int): seq<Slot>
    requires |slots| > 0
  {
    var home := hash(k) % |slots|;
    slots[At(|slots|, home, FirstNull(slots, home, 0)) := Slot(false, Some(k))]
  }

  function Removed(slots: seq<Slot>, hash: int -> nat, k: int): seq<Slot>
    requires |slots| > 0
  {
    var home := hash(k) % |slots|;
    var d := FirstStop(slots, home, k, 0);
    var i := At(|slots|, home, d);
    if d < |slots| && slots[i].key == Some(k) then slots[i := Slot(true, None)] else slots
  }

  lemma FindsNull(slots: seq<Slot>, home: int)
    requires 0 <= home < |slots| && |Live(slots)| < |slots|
    ensures FirstNull(slots, home, 0) < |slots|
  {
    hide At;
    LiveBound(slots);
    var i :| 0 <= i < |slots| && slots[i].key == None;
    var d := Reaches(|slots|, home, i);
  }

  /** With a slot to spare, a key is put into the table, and no other changes. */
  lemma InsertEffect(slots: seq<Slot>, hash: int -> nat, k: int)
    requires TableOk(slots, hash) && |Live(slots)| < |slots|
    ensures TableOk(Inserted(slots, hash, k), hash) && Live(Inserted(slots, hash, k)) == Live(slots) + multiset{k}
  {
    hide At;
    var home := hash(k) % |slots|;
    FindsNull(slots, home);
    var d := FirstNull(slots, home, 0);
    var i := At(|slots|, home, d);
    assert FoundAt(slots, home, d, i);
    UpdateOk(slots, hash, i, Slot(false, Some(k)));
    LiveUpdate(slots, i, Slot(false, Some(k)));
  }

  /** A key that is there is removed once; otherwise nothing changes. */
  lemma RemoveEffect(slots: seq<Slot>, hash: int -> nat, k: int)
    requires TableOk(slots, hash) && |slots| > 0
    requires k in Live(slots) || exists i | 0 <= i < |slots| :: Unused(slots[i])
    ensures TableOk(Removed(slots, hash, k), hash)
    ensures Live(Removed(slots, hash, k)) == Live(slots) - multiset{k}
  {
    hide At, Live, TableOk;
    SearchRight(slots, hash, k);
    Less(Live(Removed(slots, hash, k)), Live(slots), k);
    var home := hash(k) % |slots|;
    var i := At(|slots|, home, FirstStop(slots, home, k, 0));
    if k in Live(slots) {
      UpdateOk(slots, hash, i, Slot(true, None));
      LiveUpdate(slots, i, Slot(true, None));
    }
  }

  function EmptyTable(n: nat): seq<Slot> { seq(n, i => EMPTY) }

  lemma EmptyOk(n: nat, hash: int -> nat)
    requires n > 0
    ensures TableOk(EmptyTable(n), hash) && Live(EmptyTable(n)) == multiset{}
  {
    LiveEmpty(EmptyTable(n));
    forall i | 0 <= i < n ensures Reachable(EmptyTable(n), hash, i) {}
  }

  // ----- The set ----------------------------------------------------------------------

  /** The slots and the element counter, which also counts the keys moved by a rehash. */
  datatype Table = Table(slots: seq<Slot>, count: int)

  ghost predicate Sound(t: Table, hash: int -> nat) {
    TableOk(t.slots, hash) && |Live(t.slots)| <= t.count
  }

  /** The keys from slot `i` on are put into the table `to`. */
  function Moved(from: seq<Slot>, hash: int -> nat, i: nat, to: Table): Table
    requires i <= |from| && |to.slots| > 0
    decreases |from| - i
  {
    if i == |from| then to
    else
      match from[i].key
      case None => Moved(from, hash, i + 1, to)
      case Some(k) => Moved(from, hash, i + 1, Table(Inserted(to.slots, hash, k), to.count + 1))
  }

  function Rehashed(t: Table, hash: int -> nat): Table
    requires |t.slots| > 0
  {
    if t.count * 3 < |t.slots| then t
    else Moved(t.slots, hash, 0, Table(EmptyTable(2 * |t.slots|), t.count))
  }

  function Insert(t: Table, hash: int -> nat, k: int): Table
    requires |t.slots| > 0 && |Rehashed(t, hash).slots| > 0
  {
    var r := Rehashed(t, hash);
    Table(Inserted(r.slots, hash, k), r.count + 1)
  }

  function Remove(t: Table, hash: int -> nat, k: int): Table
    requires |t.slots| > 0
  {
    Table(Removed(t.slots, hash, k), if k in Live(t.slots) then t.count - 1 else t.count)
  }

  lemma {:induction false} LiveAppend(s: seq<Slot>, x: Slot)
    ensures Live(s + [x]) == Live(s) + KeyOf(x)
    decreases |s|
  {
    if s == [] {
      assert s + [x] == [x];
    } else {
      LiveAppend(s[1..], x);
      assert (s + [x])[1..] == s[1..] + [x];
    }
  }

  /** Moving the keys keeps the multiset of keys. */
  lemma {:induction false} MovedEffect(from: seq<Slot>, hash: int -> nat, i: nat, to: Table)
    requires i <= |from| < |to.slots| && TableOk(to.slots, hash) && Live(to.slots) == Live(from[..i])
    ensures var r := Moved(from, hash, i, to);
            && TableOk(r.slots, hash) && |r.slots| == |to.slots| && Live(r.slots) == Live(from)
            && r.count == to.count + |Live(from)| - |Live(from[..i])|
    decreases |from| - i
  {
    hide TableOk, Inserted, Live;
    if i == |from| {
      assert from[..i] == from;
    } else {
      assert from[..i + 1] == from[..i] + [from[i]];
      LiveAppend(from[..i], from[i]);
      LiveBound(from[..i]);
      if from[i].key.Some? {
        InsertEffect(to.slots, hash, from[i].key.value);
        InsertedLength(to.slots, hash, from[i].key.value);
        MovedEffect(from, hash, i + 1, Table(Inserted(to.slots, hash, from[i].key.value), to.count + 1));
      } else {
        MovedEffect(from, hash, i + 1, to);
      }
    }
  }

  lemma InsertedLength(slots: seq<Slot>, hash: int -> nat, k: int)
    requires |slots| > 0
    ensures |Inserted(slots, hash, k)| == |slots|
  {
  }

  lemma EmptyLength(n: nat)
    ensures |EmptyTable(n)| == n && Live([]) == multiset{}
  {
  }

  /** After RehashIfLoaded there is a slot to spare, and the keys are the same. */
  lemma RehashedEffect(t: Table, hash: int -> nat)
    requires Sound(t, hash) && |t.slots| > 0
    ensures Sound(Rehashed(t, hash), hash) && Live(Rehashed(t, hash).slots) == Live(t.slots)
    ensures |Live(t.slots)| < |Rehashed(t, hash).slots|
  {
    hide TableOk, Live, Moved;
    var n := |t.slots|;
    LiveBound(t.slots);
    if t.count * 3 >= n {
      EmptyOk(2 * n, hash);
      EmptyLength(2 * n);
      assert t.slots[..0] == [];
      MovedEffect(t.slots, hash, 0, Table(EmptyTable(2 * n), t.count));
    }
  }

  /** Inserting always finds a slot, and adds the key once. */
  lemma InsertRight(t: Table, hash: int -> nat, k: int)
    requires Sound(t, hash) && |t.slots| > 0
    ensures |Rehashed(t, hash).slots| > 0
    ensures Sound(Insert(t, hash, k), hash) && Live(Insert(t, hash, k).slots) == Live(t.slots) + multiset{k}
  {
    hide TableOk, Live, Rehashed, Inserted;
    RehashedEffect(t, hash);
    InsertEffect(Rehashed(t, hash).slots, hash, k);
  }

  predicate HasUnused(slots: seq<Slot>) { exists i | 0 <= i < |slots| :: Unused(slots[i]) }

  lemma RemoveRight(t: Table, hash: int -> nat, k: int)
    requires Sound(t, hash) && |t.slots| > 0 && (k in Live(t.slots) || HasUnused(t.slots))
    ensures Sound(Remove(t, hash, k), hash) && Live(Remove(t, hash, k).slots) == Live(t.slots) - multiset{k}
  {
    hide TableOk, Live, Removed;
    RemoveEffect(t.slots, hash, k);
  }

  // ----- Runs -------------------------------------------------------------------------

  datatype Op = InsertOp(key: int) | RemoveOp(key: int)

  /** The operation returns: only the search for a key that is not there may fail to. */
  predicate Returns(t: Table, op: Op) {
    op.RemoveOp? ==> op.key in Live(t.slots) || HasUnused(t.slots)
  }

  ghost predicate Run(t: Table, hash: int -> nat, ops: seq<Op>, u: Table)
    decreases |ops|
  {
    if ops == [] then t == u
    else
      && Sound(t, hash) && |t.slots| > 0 && |Rehashed(t, hash).slots| > 0 && Returns(t, ops[0])
      && Run(Apply(t, hash, ops[0]), hash, ops[1..], u)
  }

  function Apply(t: Table, hash: int -> nat, op: Op): Table
    requires |t.slots| > 0 && |Rehashed(t, hash).slots| > 0
  {
    match op
    case InsertOp(k) => Insert(t, hash, k)
    case RemoveOp(k) => Remove(t, hash, k)
  }

  /** What the operations do to a multiset of keys. */
  function Keys(m: multiset<int>, ops: seq<Op>): multiset<int>
    decreases |ops|
  {
    if ops == [] then m
    else Keys(if ops[0].InsertOp? then m + multiset{ops[0].key} else m - multiset{ops[0].key}, ops[1..])
  }

  /** After any run the table holds the keys that a multiset would hold. */
  lemma {:induction false} RunRight(t: Table, hash: int -> nat, ops: seq<Op>, u: Table)
    requires Sound(t, hash) && Run(t, hash, ops, u)
    ensures Sound(u, hash) && Live(u.slots) == Keys(Live(t.slots), ops)
    decreases |ops|
  {
    hide TableOk, Live, Insert, Remove, Rehashed;
    if ops != [] {
      match ops[0] {
        case InsertOp(k) => InsertRight(t, hash, k);
        case RemoveOp(k) => RemoveRight(t, hash, k);
      }
      RunRight(Apply(t, hash, ops[0]), hash, ops[1..], u);
    }
  }

  // ----- The size of the table --------------------------------------------------------

  /** The table is doubled by an insert if and only if the counter has come to a third of it;
      then the counter counts every key once more. */
  lemma DoublesIff(t: Table, hash: int -> nat, k: int)
    requires Sound(t, hash) && |t.slots| > 0 && |Rehashed(t, hash).slots| > 0
    ensures var u, loaded := Insert(t, hash, k), 3 * t.count >= |t.slots|;
            && |u.slots| == (if loaded then 2 * |t.slots| else |t.slots|)
            && u.count == t.count + 1 + if loaded then |Live(t.slots)| else 0
  {
    hide TableOk, Live, Inserted, Moved;
    var n := |t.slots|;
    InsertedLength(Rehashed(t, hash).slots, hash, k);
    if t.count * 3 >= n {
      EmptyOk(2 * n, hash);
      EmptyLength(2 * n);
      assert t.slots[..0] == [];
      MovedEffect(t.slots, hash, 0, Table(EmptyTable(2 * n), t.count));
    }
  }

  /** How often a run doubles the table. */
  ghost function Doublings(t: Table, hash: int -> nat, ops: seq<Op>, u: Table): nat
    requires Run(t, hash, ops, u)
    decreases |ops|
  {
    if ops == [] then 0
    else (if ops[0].InsertOp? && 3 * t.count >= |t.slots| then 1 else 0)
         + Doublings(Apply(t, hash, ops[0]), hash, ops[1..], u)
  }

  /** The number of slots changes only when an insert finds the counter at a third of it, and
      then doubles. */
  lemma {:induction false} SizeDoubles(t: Table, hash: int -> nat, ops: seq<Op>, u: Table)
    requires Sound(t, hash) && Run(t, hash, ops, u)
    ensures |u.slots| == |t.slots| * Pow2(Doublings(t, hash, ops, u))
    decreases |ops|
  {
    hide TableOk, Live, Insert, Remove, Rehashed, Pow2;
    if ops == [] {
      NoDoubling(|t.slots|);
    } else {
      var t', op := Apply(t, hash, ops[0]), ops[0];
      match op {
        case InsertOp(k) => InsertRight(t, hash, k); DoublesIff(t, hash, k);
        case RemoveOp(k) => RemoveRight(t, hash, k); RemovedLength(t, hash, k);
      }
      SizeDoubles(t', hash, ops[1..], u);
      OneDoubling(|t.slots|, Doublings(t', hash, ops[1..], u));
    }
  }

  lemma RemovedLength(t: Table, hash: int -> nat, k: int)
    requires |t.slots| > 0
    ensures |Remove(t, hash, k).slots| == |t.slots|
  {
  }

  lemma NoDoubling(n: int)
    ensures n * Pow2(0) == n
  {
  }

  lemma OneDoubling(n: int, j: nat)
    ensures 2 * n * Pow2(j) == n * Pow2(j + 1)
  {
    var p := Pow2(j);
    assert Pow2(j + 1) == 2 * p;
    assert 2 * n * p == n * (2 * p);
  }

  // ----- A table full of tombs --------------------------------------------------------

  function Identity(x: int): nat { if x < 0 then 0 else x }

  /** Each of the keys from `k` to `n` is put in and removed again. */
  function Churn(k: nat, n: nat): seq<Op>
    requires k <= n
    decreases n - k
  {
    if k == n then [] else [InsertOp(k), RemoveOp(k)] + Churn(k + 1, n)
  }

  /** The first `k` slots are tombs, the others were never used. */
  function Tombs(n: nat, k: nat): seq<Slot> { seq(n, i => if i < k then Slot(true, None) else EMPTY) }

  /** A run from the empty table, with never more than one key in it, after which the search
      for any key goes on forever. */
  lemma SearchForever(n: nat)
    requires n > 0
    ensures Run(Table(EmptyTable(n), 0), Identity, Churn(0, n), Table(Tombs(n, n), 0))
    ensures forall q: int, d: nat :: !Stops(Tombs(n, n), Identity(q) % n, q, d)
  {
    hide At;
    assert EmptyTable(n) == Tombs(n, 0);
    ChurnRuns(n, 0);
    forall q: int, d: nat ensures !Stops(Tombs(n, n), Identity(q) % n, q, d) {
      assert !Unused(Tombs(n, n)[At(n, Identity(q) % n, d)]);
    }
  }

  lemma {:induction false} ChurnRuns(n: nat, k: nat)
    requires k <= n && n > 0
    ensures Run(Table(Tombs(n, k), 0), Identity, Churn(k, n), Table(Tombs(n, n), 0))
    decreases n - k
  {
    hide Insert, Remove, Rehashed, Sound, Tombs;
    if k < n {
      ChurnRuns(n, k + 1);
      ChurnStep(n, k);
      var t := Table(Tombs(n, k), 0);
      TombsValid(n, k);
      InsertRight(t, Identity, k);
      RunTwice(t, InsertOp(k), RemoveOp(k), Churn(k + 1, n), Table(Tombs(n, n), 0));
    }
  }

  lemma RunTwice(t: Table, a: Op, b: Op, ops: seq<Op>, u: Table)
    requires Sound(t, Identity) && |t.slots| > 0 && |Rehashed(t, Identity).slots| > 0 && Returns(t, a)
    requires var t' := Apply(t, Identity, a);
             && Sound(t', Identity) && |t'.slots| > 0 && |Rehashed(t', Identity).slots| > 0 && Returns(t', b)
             && Run(Apply(t', Identity, b), Identity, ops, u)
    ensures Run(t, Identity, [a, b] + ops, u)
  {
    hide Insert, Remove, Rehashed, Sound, Returns, Apply;
    var all := [a, b] + ops;
    assert all[1..] == [b] + ops && all[1..][1..] == ops;
  }

  lemma TombsValid(n: nat, k: nat)
    requires n > 0
    ensures Sound(Table(Tombs(n, k), 0), Identity) && |Tombs(n, k)| == n
  {
    LiveEmpty(Tombs(n, k));
    forall i {:trigger Reachable(Tombs(n, k), Identity, i)} | 0 <= i < n ensures Reachable(Tombs(n, k), Identity, i) {}
  }

  lemma ChurnStep(n: nat, k: nat)
    requires k < n
    ensures var t := Table(Tombs(n, k), 0);
            && |t.slots| > 0 && |Rehashed(t, Identity).slots| > 0
            && var u := Insert(t, Identity, k);
            && |u.slots| > 0 && |Rehashed(u, Identity).slots| > 0 && k in Live(u.slots)
            && Remove(u, Identity, k) == Table(Tombs(n, k + 1), 0)
  {
    hide Live;
    var t := Tombs(n, k);
    TombsValid(n, k);
    AtIs(n, k, 0);
    Small(k, n);
    var u := t[k := Slot(false, Some(k))];
    assert Inserted(t, Identity, k) == u by { assert FirstNull(t, k, 0) == 0; }
    assert FirstStop(u, k, k, 0) == 0;
    LiveHas(u, k);
    assert u[k := Slot(true, None)] == Tombs(n, k + 1);
    InsertRight(Table(t, 0), Identity, k);
    RehashedEffect(Insert(Table(t, 0), Identity, k), Identity);
  }

  // ----- The class --------------------------------------------------------------------

  // The next slot, with the wrap to the first.
  lemma AtNext(n: int, home: int, d: nat)
    requires 0 <= home < n && d < n
    ensures At(n, home, 0) == home
    ensures d + 1 < n ==> At(n, home, d + 1) == if At(n, home, d) + 1 >= n then 0 else At(n, home, d) + 1
  {
    AtIs(n, home, 0);
    AtIs(n, home, d);
    if d + 1 < n { AtIs(n, home, d + 1); }
  }

  lemma EmptySound(n: nat, hash: int -> nat)
    requires n > 0
    ensures |EmptyTable(n)| == n && Sound(Table(EmptyTable(n), 0), hash)
  {
    EmptyOk(n, hash);
  }

  class HashSetInternal {
    const hash: int -> nat
    var slots: seq<Slot>
    var numElements: int

    function State(): Table
      reads this
    {
      Table(slots, numElements)
    }

    ghost predicate Valid()
      reads this
    {
      |slots| > 0 && Sound(State(), hash)
    }

    constructor (hash: int -> nat)
      ensures Valid() && this.hash == hash && State() == Table(EmptyTable(1024), 0)
    {
      hide Sound, EmptyTable;
      this.hash := hash;
      slots := EmptyTable(1024);
      numElements := 0;
      EmptySound(1024, hash);
    }

    method InsertKeyInternal(key: int, table: seq<Slot>) returns (result: seq<Slot>)
      requires TableOk(table, hash) && |Live(table)| < |table|
      modifies this`numElements
      ensures result == Inserted(table, hash, key) && numElements == old(numElements) + 1
    {
      hide At, Live, TableOk;
      var index := hash(key) % |table|;
      ghost var home, d := index, 0;
      FindsNull(table, home);
      AtNext(|table|, home, 0);
      while true
        invariant 0 <= d < |table| && index == At(|table|, home, d) && numElements == old(numElements)
        invariant FirstNull(table, home, d) == FirstNull(table, home, 0)
        decreases |table| - d
      {
        if table[index].key == None {
          result := table[index := Slot(false, Some(key))];
          numElements := numElements + 1;
          return;
        }
        AtNext(|table|, home, d);
        index := index + 1;
        if index >= |table| {
          index := 0;
        }
        d := d + 1;
      }
    }

    method InsertKey(key: int)
      requires Valid()
      modifies this
      ensures Valid() && |Rehashed(old(State()), hash).slots| > 0
      ensures State() == Insert(old(State()), hash, key)
      ensures Live(slots) == Live(old(slots)) + multiset{key}
    {
      hide Sound, Live, TableOk, Inserted, Rehashed;
      InsertRight(State(), hash, key);
      RehashedEffect(State(), hash);
      RehashIfLoaded();
      ValidTable(State(), hash);
      InsertedLength(slots, hash, key);
      slots := InsertKeyInternal(key, slots);
    }

    /** Returns if the key is there or some slot was never used; then it is right. */
    method SearchKey(key: int) returns (found: Option<int>)
      requires Valid() && (key in Live(slots) || HasUnused(slots))
      ensures found == if key in Live(slots) then Some(key) else None
    {
      hide At, Live, TableOk;
      var index := hash(key) % |slots|;
      ghost var home, d := index, 0;
      ValidTable(State(), hash);
      SearchRight(slots, hash, key);
      AtNext(|slots|, home, 0);
      while true
        invariant 0 <= d < |slots| && index == At(|slots|, home, d)
        invariant FirstStop(slots, home, key, d) == FirstStop(slots, home, key, 0)
        decreases |slots| - d
      {
        if slots[index].key != None {
          if slots[index].key == Some(key) {
            return slots[index].key;
          }
        } else if slots[index].key == None && !slots[index].isTomb {
          return None;
        }
        AtNext(|slots|, home, d);
        index := index + 1;
        if index >= |slots| {
          index := 0;
        }
        d := d + 1;
      }
    }

    method RemoveKey(key: int) returns (found: Option<int>)
      requires Valid() && (key in Live(slots) || HasUnused(slots))
      modifies this
      ensures Valid() && State() == Remove(old(State()), hash, key)
      ensures Live(slots) == Live(old(slots)) - multiset{key}
      ensures found == if key in Live(old(slots)) then Some(key) else None
    {
      hide At, Live, TableOk;
      var index := hash(key) % |slots|;
      ghost var home, d := index, 0;
      ValidTable(State(), hash);
      SearchRight(slots, hash, key);
      RemoveRight(State(), hash, key);
      AtNext(|slots|, home, 0);
      while true
        invariant 0 <= d < |slots| && index == At(|slots|, home, d) && State() == old(State())
        invariant FirstStop(slots, home, key, d) == FirstStop(slots, home, key, 0)
        decreases |slots| - d
      {
        if slots[index].key != None {
          if slots[index].key == Some(key) {
            found := slots[index].key;
            slots := slots[index := Slot(true, None)];
            numElements := numElements - 1;
            return;
          }
        } else if slots[index].key == None && !slots[index].isTomb {
          return None;
        }
        AtNext(|slots|, home, d);
        index := index + 1;
        if index >= |slots| {
          index := 0;
        }
        d := d + 1;
      }
    }

    method RehashIfLoaded()
      requires Valid()
      modifies this
      ensures State() == Rehashed(old(State()), hash)
    {
      hide Sound, Live, TableOk, Inserted;
      if numElements * 3 < |slots| {
        return;
      }
      var newSlots := EmptyTable(2 * |slots|);
      ghost var t := State();
      ValidTable(t, hash);
      EmptyOk(2 * |slots|, hash);
      EmptyLength(2 * |slots|);
      var i := 0;
      assert slots[..0] == [];
      while i < |slots|
        invariant 0 <= i <= |slots| && slots == t.slots
        invariant TableOk(newSlots, hash) && |newSlots| == 2 * |slots| && Live(newSlots) == Live(slots[..i])
        invariant Moved(slots, hash, i, Table(newSlots, numElements)) == Rehashed(t, hash)
      {
        assert slots[..i + 1] == slots[..i] + [slots[i]];
        LiveAppend(slots[..i], slots[i]);
        LiveBound(slots[..i]);
        var key := slots[i].key;
        if key != None {
          InsertEffect(newSlots, hash, key.value);
          InsertedLength(newSlots, hash, key.value);
          newSlots := InsertKeyInternal(key.value, newSlots);
        }
        i := i + 1;
      }
      slots := newSlots;
    }
  }

  lemma ValidTable(t: Table, hash: int -> nat)
    requires Sound(t, hash)
    ensures TableOk(t.slots, hash) && |Live(t.slots)| <= t.count
  {
  }
}
