/**
 The stock tables that movements and transfers share: balances, locations and the
 movement ledger (internal/execution/movement/adapters/postgres/store.go and
 internal/inventory/adapters/postgres/store.go). Each function is one SQL statement;
 an `Err` is a statement that failed or a row count the code rejects, and rolls back.
 */
module StockTables {
  import opened Results

  datatype Workflow = Putaway | Picking | Replenishment

  datatype Error =
    | TaskNotFound | WarehouseDenied | KeyReused | VersionConflict | NotAssigned | NotInProgress | NotStartable
    | SourceInvalid | DestinationInvalid | ItemInvalid | SequenceInvalid | QuantityExceeded | InsufficientStock
    | CapacityExceeded | Incomplete | SameLocation | EnvelopeInvalid | ConstraintViolated | NotOffered

  datatype Slot = Slot(warehouse: string, location: string, item: string)

  datatype Place = Place(warehouse: string, location: string)

  datatype Location = Location(capacity: int, used: int, compatible: Option<string>)

  datatype Kind = MovedBy(workflow: Workflow) | Transferred

  /** A ledger row. `id` is the command id of a transfer; a movement draws a fresh one, which never collides. */
  datatype Movement = Movement(
    id: Option<string>, task: string, kind: Kind, warehouse: string, item: string,
    source: string, destination: string, quantity: int, version: int)
  {
    function From(): Slot { Slot(warehouse, source, item) }
    function To(): Slot { Slot(warehouse, destination, item) }
    function FromPlace(): Place { Place(warehouse, source) }
    function ToPlace(): Place { Place(warehouse, destination) }
  }

  datatype Stock = Stock(balances: map<Slot, int>, locations: map<Place, Location>, ledger: seq<Movement>)

  function Quantity(balances: map<Slot, int>, slot: Slot): int {
    if slot in balances then balances[slot] else 0
  }

  // ---- The statements -------------------------------------------------------------------

  /** UPDATE ... SET quantity = quantity - q WHERE ... AND quantity >= q, which must hit its row. */
  function Take(st: Stock, slot: Slot, q: int): Result<Stock, Error> {
    if slot !in st.balances || st.balances[slot] < q then Err(InsufficientStock)
    else Ok(st.(balances := st.balances[slot := st.balances[slot] - q]))
  }

  /** INSERT ... ON CONFLICT DO UPDATE SET quantity = quantity + q; the proposed row must pass CHECK (quantity >= 0). */
  function Put(st: Stock, slot: Slot, q: int): Result<Stock, Error> {
    if q < 0 then Err(ConstraintViolated)
    else Ok(st.(balances := st.balances[slot := Quantity(st.balances, slot) + q]))
  }

  /**
   UPDATE warehouse_location SET used_capacity = used_capacity + d, under CHECK (used_capacity >= 0); no row is
   no error.
   */
  function Occupy(st: Stock, place: Place, d: int): Result<Stock, Error> {
    if place !in st.locations then Ok(st)
    else if st.locations[place].used + d < 0 then Err(ConstraintViolated)
    else Ok(st.(locations := st.locations[place := st.locations[place].(used := st.locations[place].used + d)]))
  }

  /** INSERT INTO inventory_movement: CHECK (quantity > 0), its primary key, and UNIQUE (task_id, aggregate_version). */
  function Record(st: Stock, m: Movement): Result<Stock, Error> {
    if m.quantity <= 0 || (exists r <- st.ledger :: (r.task == m.task && r.version == m.version) || (m.id.Some? && r.id == m.id))
    then Err(ConstraintViolated)
    else Ok(st.(ledger := st.ledger + [m]))
  }

  /** `CheckMove`: enough stock at the source, a known destination, the right item there, and room for it. */
  function CheckMove(st: Stock, m: Movement): Result<Stock, Error> {
    if Quantity(st.balances, m.From()) < m.quantity || m.From() !in st.balances then Err(InsufficientStock)
    else if m.ToPlace() !in st.locations then Err(DestinationInvalid)
    else
      var l := st.locations[m.ToPlace()];
      if l.compatible.Some? && l.compatible.value != m.item then Err(CapacityExceeded)
      else if l.capacity - l.used < m.quantity then Err(CapacityExceeded)
      else Ok(st)
  }

  function ApplyMove(st: Stock, m: Movement): Result<Stock, Error> {
    var taken :- Take(st, m.From(), m.quantity);
    var put :- Put(taken, m.To(), m.quantity);
    var left :- Occupy(put, m.FromPlace(), -m.quantity);
    var entered :- Occupy(left, m.ToPlace(), m.quantity);
    Record(entered, m)
  }

  /** `ValidateLocations` of a transfer. */
  function ValidateLocations(st: Stock, m: Movement): Result<Stock, Error> {
    if m.source == m.destination then Err(SameLocation)
    else if m.From() !in st.balances then Err(SourceInvalid)
    else if st.balances[m.From()] < m.quantity then Err(InsufficientStock)
    else if m.ToPlace() !in st.locations then Err(DestinationInvalid)
    else Ok(st)
  }

  function Transfer(st: Stock, m: Movement): Result<Stock, Error> {
    var taken :- Take(st, m.From(), m.quantity);
    var put :- Put(taken, m.To(), m.quantity);
    Record(put, m)
  }
}

/** The balances that an answer to a transfer shows (internal/inventory/application/service.go, `balanceSnapshot`). */
module StockSnapshots {
  import opened Ordering
  import opened Results
  import opened StockTables
  import opened Text

  /** WHERE warehouse_id = ... AND item_id ILIKE '%...%' AND location_id ILIKE '%...%'. */
  predicate Finds(s: Slot, like: Slot) {
    && s.warehouse == like.warehouse
    && (like.item == "" || FoldContains(s.item, like.item)) && (like.location == "" || FoldContains(s.location, like.location))
  }

  /** ORDER BY location_id, item_id. */
  predicate SortsBefore(a: Slot, b: Slot) {
    Less(a.location, b.location) || (a.location == b.location && Less(a.item, b.item))
  }

  lemma {:induction false} SortIsTotal(a: Slot, b: Slot)
    ensures a.warehouse == b.warehouse && a != b ==> SortsBefore(a, b) || SortsBefore(b, a)
    ensures !(SortsBefore(a, b) && SortsBefore(b, a)) && !SortsBefore(a, a)
  {
    LessIsTotal(a.location, b.location);
    LessIsTotal(a.item, b.item);
  }

  lemma {:induction false} SortIsTransitive(a: Slot, b: Slot, c: Slot)
    requires SortsBefore(a, b) && SortsBefore(b, c)
    ensures SortsBefore(a, c)
  {
    if Less(a.location, b.location) && Less(b.location, c.location) {
      LessIsTransitive(a.location, b.location, c.location);
    } else if a.location == b.location && b.location == c.location {
      LessIsTransitive(a.item, b.item, c.item);
    }
  }

  predicate IsFirst(s: Slot, found: set<Slot>) {
    s in found && forall x <- found :: x == s || SortsBefore(s, x)
  }

  lemma {:induction false} FirstExists(found: set<Slot>) returns (first: Slot)
    requires found != {} && forall a <- found, b <- found :: a.warehouse == b.warehouse
    ensures IsFirst(first, found)
    decreases |found|
  {
    var s :| s in found;
    if found == {s} {
      first := s;
    } else {
      assert found - {s} != {} by {
        assert found == {s} + (found - {s});
      }
      first := FirstExists(found - {s});
      SortIsTotal(s, first);
      if SortsBefore(s, first) {
        forall x | x in found && x != s
          ensures SortsBefore(s, x)
        {
          if x != first {
            SortIsTransitive(s, first, x);
          }
        }
        first := s;
      }
    }
  }

  lemma {:induction false} FirstIsUnique(found: set<Slot>, a: Slot, b: Slot)
    requires IsFirst(a, found) && IsFirst(b, found)
    ensures a == b
  {
    SortIsTotal(a, b);
  }

  lemma {:induction false} OneFirst(found: set<Slot>)
    requires found != {} && forall a <- found, b <- found :: a.warehouse == b.warehouse
    ensures exists s :: IsFirst(s, found)
    ensures forall a, b :: IsFirst(a, found) && IsFirst(b, found) ==> a == b
  {
    var first := FirstExists(found);
    forall a, b | IsFirst(a, found) && IsFirst(b, found)
      ensures a == b
    {
      FirstIsUnique(found, a, b);
    }
  }

  datatype Shown = Shown(location: string, item: string, quantity: int)

  function Found(balances: map<Slot, int>, like: Slot): set<Slot> {
    set s | s in balances && Finds(s, like)
  }

  /** The first balance found, if any. */
  function Snapshot(balances: map<Slot, int>, like: Slot): Option<Shown> {
    if Found(balances, like) == {} then None
    else
      OneFirst(Found(balances, like));
      var s :| IsFirst(s, Found(balances, like));
      Some(Shown(s.location, s.item, balances[s]))
  }

  lemma {:induction false} SnapshotIsFirst(balances: map<Slot, int>, like: Slot, s: Slot)
    requires IsFirst(s, Found(balances, like))
    ensures Snapshot(balances, like) == Some(Shown(s.location, s.item, balances[s]))
  {
    OneFirst(Found(balances, like));
  }

  lemma {:induction false} FindsItself(s: Slot)
    ensures Finds(s, s)
  {
    assert s.item[0..0 + |s.item|] == s.item && s.location[0..0 + |s.location|] == s.location;
    assert FoldAt(s.item, s.item, 0) && FoldAt(s.location, s.location, 0);
  }

  /** A balance in the same warehouse whose location and item contain those asked for, case aside, and sort before them. */
  predicate Hides(x: Slot, s: Slot) {
    && x.warehouse == s.warehouse && FoldContains(x.location, s.location) && FoldContains(x.item, s.item)
    && (Less(x.location, s.location) || (x.location == s.location && Less(x.item, s.item)))
  }

  lemma {:induction false} EverythingContainsNothing(s: string)
    ensures FoldContains(s, "")
  {
    assert FoldAt(s, "", 0);
  }

  lemma {:induction false} HidesExactly(x: Slot, s: Slot)
    ensures Hides(x, s) <==> Finds(x, s) && SortsBefore(x, s)
  {
    EverythingContainsNothing(x.item);
    EverythingContainsNothing(x.location);
  }

  /** A snapshot shows the balance asked for exactly when no other balance hides it. */
  lemma {:induction false} SnapshotShowsExactly(balances: map<Slot, int>, s: Slot)
    requires s in balances
    ensures Snapshot(balances, s) == Some(Shown(s.location, s.item, balances[s])) <==> forall x <- balances :: !Hides(x, s)
  {
    FindsItself(s);
    var found := Found(balances, s);
    assert s in found;
    var first := FirstExists(found);
    SnapshotIsFirst(balances, s, first);
    SortIsTotal(first, s);
    HidesExactly(first, s);
    if first == s {
      forall x | x in balances
        ensures !Hides(x, s)
      {
        HidesExactly(x, s);
        if Finds(x, s) {
          assert x in found;
          SortIsTotal(x, s);
        }
      }
    } else {
      assert first in balances && Finds(first, s) && SortsBefore(first, s);
    }
  }

  /** Location "AB" hides location "B": a search for "B" finds both, and "AB" sorts first. */
  lemma {:induction false} LongerNameHides(balances: map<Slot, int>)
    requires Slot("WH-01", "AB", "ITEM-001") in balances && Slot("WH-01", "B", "ITEM-001") in balances
    ensures Snapshot(balances, Slot("WH-01", "B", "ITEM-001"))
         != Some(Shown("B", "ITEM-001", balances[Slot("WH-01", "B", "ITEM-001")]))
  {
    var long, short := Slot("WH-01", "AB", "ITEM-001"), Slot("WH-01", "B", "ITEM-001");
    assert "AB"[1..1 + |"B"|] == "B";
    assert FoldAt("AB", "B", 1);
    FindsItself(short);
    assert Finds(long, short) && SortsBefore(long, short);
    HidesExactly(long, short);
    SnapshotShowsExactly(balances, short);
  }
}

/** What a ledger row means, and the laws that make the ledger a true account of the balances. */
module StockLaws {
  import opened Results
  import opened Sums
  import opened StockTables

  /** The balances after one ledger row: its quantity leaves one slot and enters the other. */
  function Post(balances: map<Slot, int>, m: Movement): map<Slot, int> {
    var taken := balances[m.From() := Quantity(balances, m.From()) - m.quantity];
    taken[m.To() := Quantity(taken, m.To()) + m.quantity]
  }

  function Replay(balances: map<Slot, int>, ledger: seq<Movement>): map<Slot, int> {
    if ledger == [] then balances else Post(Replay(balances, ledger[..|ledger| - 1]), ledger[|ledger| - 1])
  }

  /** What one row adds to the goods at one place. */
  function Net(m: Movement, p: Place): int {
    (if m.ToPlace() == p then m.quantity else 0) - (if m.FromPlace() == p then m.quantity else 0)
  }

  /** The net amount that a stretch of the ledger brought to a place by transfers, which leave used_capacity alone. */
  function TransferredNet(ledger: seq<Movement>, p: Place): int {
    if ledger == [] then 0
    else
      var m := ledger[|ledger| - 1];
      TransferredNet(ledger[..|ledger| - 1], p) + if m.kind.Transferred? then Net(m, p) else 0
  }

  /** The total of one item over all the locations of a warehouse. */
  ghost function Total(balances: map<Slot, int>, warehouse: string, item: string): int {
    Sum(map s | s in balances && s.warehouse == warehouse && s.item == item :: balances[s])
  }

  /** The stock of all items at one place. */
  ghost function StockAt(balances: map<Slot, int>, p: Place): int {
    Sum(map s | s in balances && s.warehouse == p.warehouse && s.location == p.location :: balances[s])
  }

  ghost predicate NonNegative(balances: map<Slot, int>) {
    forall s <- balances :: 0 <= balances[s]
  }

  lemma TotalUpdate(balances: map<Slot, int>, s: Slot, v: int, warehouse: string, item: string)
    ensures Total(balances[s := v], warehouse, item)
         == Total(balances, warehouse, item)
            + if s.warehouse == warehouse && s.item == item then v - Quantity(balances, s) else 0
  {
    var part := map x | x in balances && x.warehouse == warehouse && x.item == item :: balances[x];
    var next := map x | x in balances[s := v] && x.warehouse == warehouse && x.item == item :: balances[s := v][x];
    if s.warehouse == warehouse && s.item == item {
      SumUpdate(part, s, v);
      assert next == part[s := v];
    } else {
      assert next == part;
    }
  }

  lemma StockAtUpdate(balances: map<Slot, int>, s: Slot, v: int, p: Place)
    ensures StockAt(balances[s := v], p)
         == StockAt(balances, p)
            + if s.warehouse == p.warehouse && s.location == p.location then v - Quantity(balances, s) else 0
  {
    var part := map x | x in balances && x.warehouse == p.warehouse && x.location == p.location :: balances[x];
    var next := map x | x in balances[s := v] && x.warehouse == p.warehouse && x.location == p.location :: balances[s := v][x];
    if s.warehouse == p.warehouse && s.location == p.location {
      SumUpdate(part, s, v);
      assert next == part[s := v];
    } else {
      assert next == part;
    }
  }

  /** A ledger row never changes the total of an item in a warehouse. */
  lemma PostConserves(balances: map<Slot, int>, m: Movement, warehouse: string, item: string)
    ensures Total(Post(balances, m), warehouse, item) == Total(balances, warehouse, item)
  {
    var taken := balances[m.From() := Quantity(balances, m.From()) - m.quantity];
    TotalUpdate(balances, m.From(), Quantity(balances, m.From()) - m.quantity, warehouse, item);
    TotalUpdate(taken, m.To(), Quantity(taken, m.To()) + m.quantity, warehouse, item);
  }

  /** A ledger row changes the goods at a place by its net amount there. */
  lemma PostShifts(balances: map<Slot, int>, m: Movement, p: Place)
    ensures StockAt(Post(balances, m), p) == StockAt(balances, p) + Net(m, p)
  {
    var left := Quantity(balances, m.From()) - m.quantity;
    var taken := balances[m.From() := left];
    StockAtUpdate(balances, m.From(), left, p);
    var entered := Quantity(taken, m.To()) + m.quantity;
    StockAtUpdate(taken, m.To(), entered, p);
    assert Post(balances, m) == taken[m.To() := entered];
  }

  /** The change one committed ledger row makes to the three tables. */
  ghost predicate Posted(st: Stock, st': Stock, m: Movement) {
    && 0 < m.quantity && m.From() in st.balances && m.quantity <= st.balances[m.From()]
    && st'.ledger == st.ledger + [m]
    && st'.balances == Post(st.balances, m)
    && st'.locations.Keys == st.locations.Keys
    && forall p <- st.locations ::
         st'.locations[p] == st.locations[p].(used := st.locations[p].used + if m.kind.Transferred? then 0 else Net(m, p))
  }

  lemma TransferIsPosted(st: Stock, m: Movement)
    requires m.kind.Transferred? && Transfer(st, m).Ok?
    ensures Posted(st, Transfer(st, m).value, m)
  {
  }

  lemma MoveIsPosted(st: Stock, m: Movement)
    requires m.kind.MovedBy? && ApplyMove(st, m).Ok?
    ensures Posted(st, ApplyMove(st, m).value, m)
  {
  }

  /**
   A transfer goes through exactly for a positive quantity that the source holds, between two places, the
   second one known.
   */
  lemma TransferSucceedsExactly(st: Stock, m: Movement)
    requires m.kind.Transferred? && m.id.Some?
    ensures (ValidateLocations(st, m).Ok? && Transfer(st, m).Ok?) <==>
              && 0 < m.quantity <= Quantity(st.balances, m.From()) && m.source != m.destination
              && m.ToPlace() in st.locations
              && forall r <- st.ledger :: r.id != m.id && (r.task != m.task || r.version != m.version)
  {
  }

  // ---- Histories of posted rows -------------------------------------------------------------

  /** `st'` is `st` with the rows of `ledger` posted to it, one at a time. */
  ghost predicate History(st: Stock, st': Stock, ledger: seq<Movement>)
    decreases ledger
  {
    if ledger == [] then st' == st
    else
      var before, last := ledger[..|ledger| - 1], ledger[|ledger| - 1];
      exists mid :: History(st, mid, before) && Posted(mid, st', last)
  }

  lemma HistoryExtends(st: Stock, mid: Stock, st': Stock, ledger: seq<Movement>, m: Movement)
    requires History(st, mid, ledger) && Posted(mid, st', m)
    ensures History(st, st', ledger + [m])
  {
    assert (ledger + [m])[..|ledger|] == ledger;
  }

  /** The location balances are the initial balances with the ledger replayed over them. */
  lemma {:induction false} LedgerExplainsBalances(st: Stock, st': Stock, ledger: seq<Movement>)
    requires History(st, st', ledger)
    ensures st'.ledger == st.ledger + ledger
    ensures st'.balances == Replay(st.balances, ledger)
    decreases ledger
  {
    if ledger != [] {
      var before, last := ledger[..|ledger| - 1], ledger[|ledger| - 1];
      var mid :| History(st, mid, before) && Posted(mid, st', last);
      LedgerExplainsBalances(st, mid, before);
      assert st.ledger + before + [last] == st.ledger + ledger;
    }
  }

  /** No prefix of the ledger replays to a negative balance. */
  lemma {:induction false} PrefixesStayNonNegative(st: Stock, st': Stock, ledger: seq<Movement>, n: nat)
    requires History(st, st', ledger) && NonNegative(st.balances) && n <= |ledger|
    ensures NonNegative(Replay(st.balances, ledger[..n]))
    decreases ledger
  {
    if ledger != [] {
      var before, last := ledger[..|ledger| - 1], ledger[|ledger| - 1];
      var mid :| History(st, mid, before) && Posted(mid, st', last);
      if n < |ledger| {
        PrefixesStayNonNegative(st, mid, before, n);
        assert ledger[..n] == before[..n];
      } else {
        PrefixesStayNonNegative(st, mid, before, |before|);
        LedgerExplainsBalances(st, mid, before);
        assert before[..|before|] == before && ledger[..n] == ledger;
      }
    }
  }

  /** The total of every item in every warehouse stays what it was. */
  lemma {:induction false} TotalsAreConserved(st: Stock, st': Stock, ledger: seq<Movement>, warehouse: string, item: string)
    requires History(st, st', ledger)
    ensures Total(st'.balances, warehouse, item) == Total(st.balances, warehouse, item)
    decreases ledger
  {
    if ledger != [] {
      var before := ledger[..|ledger| - 1];
      var mid :| History(st, mid, before) && Posted(mid, st', ledger[|ledger| - 1]);
      TotalsAreConserved(st, mid, before, warehouse, item);
      PostConserves(mid.balances, ledger[|ledger| - 1], warehouse, item);
    }
  }

  /** Used capacity and stock of a recorded location drift apart by exactly what transfers brought in. */
  lemma {:induction false} CapacityFollowsStock(st: Stock, st': Stock, ledger: seq<Movement>, p: Place)
    requires History(st, st', ledger) && p in st.locations
    ensures p in st'.locations
    ensures st'.locations[p].capacity == st.locations[p].capacity && st'.locations[p].compatible == st.locations[p].compatible
    ensures st'.locations[p].used - StockAt(st'.balances, p)
         == st.locations[p].used - StockAt(st.balances, p) - TransferredNet(ledger, p)
    decreases ledger
  {
    if ledger != [] {
      var before := ledger[..|ledger| - 1];
      var mid :| History(st, mid, before) && Posted(mid, st', ledger[|ledger| - 1]);
      CapacityFollowsStock(st, mid, before, p);
      PostShifts(mid.balances, ledger[|ledger| - 1], p);
    }
  }
}
