/**
 Cursor pagination over the task list: the in-memory store that sorts, finds the cursor and
 slices (internal/execution/adapters/memory/store.go), the keyset query over the table
 (internal/execution/adapters/postgres/store.go), and the limit that the service sets
 (internal/execution/application/task_service.go). Ids are compared character by character.
 */
module Paging {
  import opened Ordering
  import opened Results
  import opened Text

  datatype Task = Task(
    id: string, category: string, status: string, priority: int, warehouse: string, operator: Option<string>, version: int)

  /**
   A cursor is the encoded id of the last task of a page; the empty id encodes to the empty cursor, which means
   none.
   */
  datatype Cursor = NoCursor | After(id: string) | Undecodable

  datatype Filter = Filter(
    warehouse: string, operator: string, category: string, status: string, query: string,
    priorityMin: int, priorityMax: int, cursor: Cursor, limit: int)

  datatype Page = Page(tasks: seq<Task>, next: Option<Cursor>)

  datatype Error = InvalidCursor | WarehouseDenied

  function Encode(id: string): Cursor {
    if id == "" then NoCursor else After(id)
  }

  function ClampLimit(limit: int): (n: int)
    ensures 1 <= n <= 100
    ensures n != limit ==> n == 20 && !(1 <= limit <= 100)
  {
    if limit < 1 || limit > 100 then 20 else limit
  }

  // ---- What is listed -----------------------------------------------------------------------

  /** The conditions both stores check; a query without wildcards means the same to both. */
  predicate Matches(t: Task, f: Filter) {
    && t.warehouse == f.warehouse
    && (t.operator.None? || t.operator.value == f.operator)
    && (f.category == "" || t.category == f.category)
    && (f.status == "" || t.status == f.status)
    && (f.query == "" || FoldContains(t.id, f.query))
  }

  /** The priority bounds, which only the in-memory store checks. */
  predicate WithinPriority(t: Task, f: Filter) {
    (f.priorityMin > 0 ==> f.priorityMin <= t.priority) && (f.priorityMax > 0 ==> t.priority <= f.priorityMax)
  }

  predicate Visible(t: Task, f: Filter) {
    Matches(t, f) && WithinPriority(t, f)
  }

  ghost predicate Ascending(l: seq<Task>) {
    forall i, j :: 0 <= i < j < |l| ==> Less(l[i].id, l[j].id)
  }

  /** `l` lists exactly the visible tasks, each once, by id. */
  ghost predicate IsListing(l: seq<Task>, tasks: map<string, Task>, f: Filter) {
    Ascending(l) && forall t :: t in l <==> t.id in tasks && tasks[t.id] == t && Visible(t, f)
  }

  // ---- The two pages --------------------------------------------------------------------------

  /** Where the cursor search stops: one past the task with the id, or back at the start if there is none. */
  function StartAfter(l: seq<Task>, id: string): (s: nat)
    ensures s <= |l|
    ensures s > 0 ==> l[s - 1].id == id
    ensures s == 0 ==> forall t <- l :: t.id != id
  {
    if l == [] then 0
    else
      var s := StartAfter(l[..|l| - 1], id);
      if s > 0 then s else if l[|l| - 1].id == id then |l| else 0
  }

  function PageAt(l: seq<Task>, limit: int, start: nat): Page
    requires 1 <= limit && start <= |l|
  {
    var end := if start + limit > |l| then |l| else start + limit;
    Page(l[start..end], if end < |l| then Some(Encode(l[end - 1].id)) else None)
  }

  function MemoryPage(l: seq<Task>, limit: int, cursor: Cursor): Result<Page, Error>
    requires 1 <= limit
  {
    match cursor
    case Undecodable => Err(InvalidCursor)
    case NoCursor => Ok(PageAt(l, limit, 0))
    case After(id) => Ok(PageAt(l, limit, StartAfter(l, id)))
  }

  /** task_id > after, in the order of the table. */
  function Beyond(l: seq<Task>, after: string): seq<Task> {
    if l == [] then []
    else Beyond(l[..|l| - 1], after) + if Less(after, l[|l| - 1].id) then [l[|l| - 1]] else []
  }

  function FirstPage(rest: seq<Task>, limit: int): Page
    requires 1 <= limit
  {
    if |rest| > limit then Page(rest[..limit], Some(Encode(rest[limit - 1].id))) else Page(rest, None)
  }

  function KeysetPage(l: seq<Task>, limit: int, cursor: Cursor): Result<Page, Error>
    requires 1 <= limit
  {
    if cursor.Undecodable? then Err(InvalidCursor)
    else
      Ok(FirstPage(Beyond(l, if cursor.After? then cursor.id else ""), limit))
  }

  // ---- Following the cursors --------------------------------------------------------------------

  datatype Store = Memory | Keyset

  function PageOf(store: Store, l: seq<Task>, limit: int, cursor: Cursor): Result<Page, Error>
    requires 1 <= limit
  {
    match store
    case Memory => MemoryPage(l, limit, cursor)
    case Keyset => KeysetPage(l, limit, cursor)
  }

  /** Pages read one after the other: cut short, at an end, or going on. */
  datatype Walk = Cut | End(page: Page) | Turn(page: Page, rest: Walk)

  /** At most `n` pages, from the cursor on, until one has no next cursor. */
  function Walked(serve: Cursor -> Result<Page, Error>, cursor: Cursor, n: nat): Walk
    decreases n
  {
    if n == 0 || serve(cursor).Err? then Cut
    else
      var page := serve(cursor).value;
      if page.next.None? then End(page) else Turn(page, Walked(serve, page.next.value, n - 1))
  }

  function Follow(store: Store, l: seq<Task>, limit: int, cursor: Cursor, n: nat): Walk
    requires 1 <= limit
  {
    Walked(c => PageOf(store, l, limit, c), cursor, n)
  }

  function Joined(w: Walk): seq<Task> {
    match w
    case Cut => []
    case End(page) => page.tasks
    case Turn(page, rest) => page.tasks + Joined(rest)
  }

  predicate Ended(w: Walk) {
    match w
    case Cut => false
    case End(_) => true
    case Turn(_, rest) => Ended(rest)
  }
}

/** Following the cursors lists every visible task once, in order. */
module PagingLaws {
  import opened Ordering
  import opened Results
  import opened Paging

  ghost predicate NoEmptyId(l: seq<Task>) {
    forall t <- l :: t.id != ""
  }

  /** A set of tasks has one listing. */
  lemma {:induction false} ListingIsUnique(l: seq<Task>, k: seq<Task>)
    requires Ascending(l) && Ascending(k) && forall t :: t in l <==> t in k
    ensures l == k
  {
    assert l != [] ==> l[0] in k;
    assert k != [] ==> k[0] in l;
    if l != [] {
      var n, m := |l| - 1, |k| - 1;
      assert l[n] in k && k[m] in l;
      LastIsGreatest(l, k[m]);
      LastIsGreatest(k, l[n]);
      LessIsTotal(l[n].id, k[m].id);
      assert l[n] == k[m];
      NotBeforeLast(l);
      NotBeforeLast(k);
      forall t
        ensures t in l[..n] <==> t in k[..m]
      {
        assert t in l <==> t in k;
      }
      ListingIsUnique(l[..n], k[..m]);
      assert l == l[..n] + [l[n]] && k == k[..m] + [k[m]];
    }
  }

  lemma LastIsGreatest(l: seq<Task>, t: Task)
    requires Ascending(l) && t in l
    ensures t == l[|l| - 1] || Less(t.id, l[|l| - 1].id)
  {
  }

  lemma NotBeforeLast(l: seq<Task>)
    requires Ascending(l) && l != []
    ensures l[|l| - 1] !in l[..|l| - 1]
    ensures forall t :: t in l <==> t in l[..|l| - 1] || t == l[|l| - 1]
  {
    LessIsTotal(l[|l| - 1].id, l[|l| - 1].id);
    assert l == l[..|l| - 1] + [l[|l| - 1]];
  }

  // ---- One page -----------------------------------------------------------------------------------

  lemma StartAfterAt(l: seq<Task>, i: nat)
    requires Ascending(l) && i < |l|
    ensures StartAfter(l, l[i].id) == i + 1
  {
    assert l[i] in l;
    var s := StartAfter(l, l[i].id);
    LessIsTotal(l[i].id, l[i].id);
  }

  /** In an ascending list, the tasks beyond an id are a suffix. */
  lemma {:induction false} BeyondIsSuffix(l: seq<Task>, s: nat, after: string)
    requires s <= |l|
    requires forall i :: 0 <= i < |l| ==> (Less(after, l[i].id) <==> s <= i)
    ensures Beyond(l, after) == l[s..]
  {
    if l != [] {
      var n := |l| - 1;
      if s <= n {
        BeyondIsSuffix(l[..n], s, after);
        assert l[s..] == l[..n][s..] + [l[n]];
      } else {
        BeyondIsSuffix(l[..n], n, after);
        assert l[s..] == [] && l[..n][n..] == [];
      }
    }
  }

  lemma BeyondTask(l: seq<Task>, s: nat)
    requires Ascending(l) && 0 < s <= |l|
    ensures Beyond(l, l[s - 1].id) == l[s..]
  {
    forall i | 0 <= i < |l|
      ensures Less(l[s - 1].id, l[i].id) <==> s <= i
    {
      LessIsTotal(l[s - 1].id, l[i].id);
    }
    BeyondIsSuffix(l, s, l[s - 1].id);
  }

  lemma BeyondNothing(l: seq<Task>)
    requires Ascending(l) && NoEmptyId(l)
    ensures Beyond(l, "") == l
  {
    forall i | 0 <= i < |l|
      ensures Less("", l[i].id)
    {
      assert l[i] in l;
    }
    BeyondIsSuffix(l, 0, "");
    assert l[0..] == l;
  }

  /** The cursor that stands for position `s` of the list. */
  function CursorAt(l: seq<Task>, s: nat): Cursor
    requires s <= |l|
  {
    if s == 0 then NoCursor else Encode(l[s - 1].id)
  }

  lemma MemoryPageAt(l: seq<Task>, limit: int, s: nat)
    requires Ascending(l) && 1 <= limit && s <= |l| && (s > 0 ==> l[s - 1].id != "")
    ensures MemoryPage(l, limit, CursorAt(l, s)) == Ok(PageAt(l, limit, s))
  {
    if s > 0 {
      StartAfterAt(l, s - 1);
    }
  }

  lemma KeysetPageAt(l: seq<Task>, limit: int, s: nat)
    requires Ascending(l) && 1 <= limit && s <= |l| && NoEmptyId(l)
    ensures KeysetPage(l, limit, CursorAt(l, s)) == Ok(PageAt(l, limit, s))
  {
    if s == 0 {
      BeyondNothing(l);
      assert l[0..] == l;
    } else {
      assert l[s - 1] in l;
      BeyondTask(l, s);
    }
    var rest := l[s..];
    if |rest| > limit {
      assert rest[..limit] == l[s..s + limit];
    } else {
      assert l[s..|l|] == rest;
    }
  }

  /** With no empty id, both stores give the page of the list that the cursor stands for. */
  lemma PageOfCursor(store: Store, l: seq<Task>, limit: int, s: nat)
    requires Ascending(l) && 1 <= limit && s <= |l| && NoEmptyId(l)
    ensures PageOf(store, l, limit, CursorAt(l, s)) == Ok(PageAt(l, limit, s))
  {
    assert s > 0 ==> l[s - 1] in l;
    match store
    case Memory => MemoryPageAt(l, limit, s);
    case Keyset => KeysetPageAt(l, limit, s);
  }

  // ---- All pages ------------------------------------------------------------------------------------

  /** The walk ends and holds the list from position `s` on. */
  ghost predicate Covers(w: Walk, l: seq<Task>, s: nat)
    requires s <= |l|
  {
    Ended(w) && Joined(w) == l[s..]
  }

  /** The pages of the list itself, from position `s` on. */
  function PagesFrom(l: seq<Task>, limit: int, s: nat, n: nat): Walk
    requires 1 <= limit && s <= |l|
    decreases n
  {
    if n == 0 then Cut
    else
      var page := PageAt(l, limit, s);
      if page.next.None? then End(page) else Turn(page, PagesFrom(l, limit, s + limit, n - 1))
  }

  lemma {:induction false} PagesCover(l: seq<Task>, limit: int, s: nat, n: nat)
    requires 1 <= limit && s <= |l| && 1 <= n && |l| - s <= n * limit
    ensures Covers(PagesFrom(l, limit, s, n), l, s)
    decreases n
  {
    var page := PageAt(l, limit, s);
    if page.next.Some? {
      OneFewer(n, limit, |l| - s);
      PagesCover(l, limit, s + limit, n - 1);
      assert l[s..] == l[s..s + limit] + l[s + limit..];
    }
  }

  /** No cursor that the store hands out is the empty one: no empty id, or (in memory) no page that ends with it. */
  ghost predicate Faithful(store: Store, l: seq<Task>, limit: int) {
    Ascending(l) && (NoEmptyId(l) || (store.Memory? && (limit > 1 || |l| <= 1 || l[0].id != "")))
  }

  /** A faithful store answers each cursor it hands out with the page of the list at that position. */
  lemma FaithfulAt(store: Store, l: seq<Task>, limit: int, s: nat)
    requires 1 <= limit && Faithful(store, l, limit) && s <= |l| && (s == 0 || limit <= s < |l|)
    ensures PageOf(store, l, limit, CursorAt(l, s)) == Ok(PageAt(l, limit, s))
  {
    if NoEmptyId(l) {
      PageOfCursor(store, l, limit, s);
    } else {
      if s > 1 {
        OnlyFirstIsEmpty(l, s - 1);
      }
      MemoryPageAt(l, limit, s);
    }
  }

  /** `serve` answers each cursor that a walk meets with the page of the list at that position. */
  ghost predicate Serves(serve: Cursor -> Result<Page, Error>, l: seq<Task>, limit: int)
    requires 1 <= limit
  {
    forall s: nat :: s <= |l| && (s == 0 || limit <= s < |l|) ==> serve(CursorAt(l, s)) == Ok(PageAt(l, limit, s))
  }

  lemma {:induction false} WalkIsPages(serve: Cursor -> Result<Page, Error>, l: seq<Task>, limit: int, s: nat, n: nat)
    requires 1 <= limit && Serves(serve, l, limit) && s <= |l| && (s == 0 || limit <= s < |l|)
    ensures Walked(serve, CursorAt(l, s), n) == PagesFrom(l, limit, s, n)
    decreases n
  {
    if n > 0 {
      assert serve(CursorAt(l, s)) == Ok(PageAt(l, limit, s));
      if PageAt(l, limit, s).next.Some? {
        assert PageAt(l, limit, s).next.value == CursorAt(l, s + limit);
        WalkIsPages(serve, l, limit, s + limit, n - 1);
      }
    }
  }

  /** Following the cursors of a faithful store walks the pages of the list. */
  lemma FollowIsPages(store: Store, l: seq<Task>, limit: int, n: nat)
    requires 1 <= limit && Faithful(store, l, limit)
    ensures Follow(store, l, limit, NoCursor, n) == PagesFrom(l, limit, 0, n)
  {
    var serve := c => PageOf(store, l, limit, c);
    forall s: nat | s <= |l| && (s == 0 || limit <= s < |l|)
      ensures serve(CursorAt(l, s)) == Ok(PageAt(l, limit, s))
    {
      FaithfulAt(store, l, limit, s);
    }
    WalkIsPages(serve, l, limit, 0, n);
  }

  lemma OneFewer(n: nat, limit: int, left: int)
    requires 1 <= n && 1 <= limit < left <= n * limit
    ensures n > 1 && left - limit <= (n - 1) * limit
  {
    assert (n - 1) * limit == n * limit - limit;
  }

  /**
   Paging refines listing: with no empty id, following the cursors from the empty one ends
   within ceil(|l| / limit) pages, and the pages joined are the listing, in both stores.
   */
  lemma PagesAreTheListing(store: Store, l: seq<Task>, limit: int, n: nat)
    requires Ascending(l) && NoEmptyId(l)
    requires 1 <= n && |l| <= n * ClampLimit(limit)
    ensures var walk := Follow(store, l, ClampLimit(limit), NoCursor, n);
            Ended(walk) && Joined(walk) == l
  {
    FollowIsPages(store, l, ClampLimit(limit), n);
    PagesCover(l, ClampLimit(limit), 0, n);
    assert l[0..] == l;
  }

  /** Some number of pages ends the walk with the whole listing. */
  ghost predicate Complete(store: Store, l: seq<Task>, limit: int)
    requires 1 <= limit
  {
    exists n :: Completed(store, l, limit, n)
  }

  ghost predicate Completed(store: Store, l: seq<Task>, limit: int, n: nat)
    requires 1 <= limit
  {
    var walk := Follow(store, l, limit, NoCursor, n);
    Ended(walk) && Joined(walk) == l
  }

  lemma FaithfulIsComplete(store: Store, l: seq<Task>, limit: int)
    requires 1 <= limit && Faithful(store, l, limit)
    ensures Complete(store, l, limit)
  {
    ProductGrows(|l| + 1, limit);
    FollowIsPages(store, l, limit, |l| + 1);
    PagesCover(l, limit, 0, |l| + 1);
    assert l[0..] == l;
    assert Completed(store, l, limit, |l| + 1);
  }

  lemma ProductGrows(n: nat, limit: int)
    requires 1 <= limit
    ensures n <= n * limit
  {
  }

  // ---- A task with an empty id ------------------------------------------------------------------------

  lemma OnlyFirstIsEmpty(l: seq<Task>, i: nat)
    requires Ascending(l) && 0 < i < |l|
    ensures l[i].id != ""
  {
    assert Less(l[0].id, l[i].id);
  }

  lemma {:induction false} BeyondExcludesEmpty(l: seq<Task>, after: string)
    ensures forall t <- Beyond(l, after) :: t.id != ""
  {
    if l != [] {
      BeyondExcludesEmpty(l[..|l| - 1], after);
    }
  }

  lemma {:induction false} WalkSkipsEmpty(serve: Cursor -> Result<Page, Error>, cursor: Cursor, n: nat)
    requires forall c, t :: serve(c).Ok? && t in serve(c).value.tasks ==> t.id != ""
    ensures forall t <- Joined(Walked(serve, cursor, n)) :: t.id != ""
    decreases n
  {
    if n > 0 && serve(cursor).Ok? && serve(cursor).value.next.Some? {
      WalkSkipsEmpty(serve, serve(cursor).value.next.value, n - 1);
    }
  }

  lemma KeysetSkipsEmpty(l: seq<Task>, limit: int, n: nat)
    requires 1 <= limit
    ensures forall t <- Joined(Follow(Keyset, l, limit, NoCursor, n)) :: t.id != ""
  {
    var serve := c => PageOf(Keyset, l, limit, c);
    forall c: Cursor, t | serve(c).Ok? && t in serve(c).value.tasks
      ensures t.id != ""
    {
      BeyondExcludesEmpty(l, if c.After? then c.id else "");
    }
    WalkSkipsEmpty(serve, NoCursor, n);
  }

  /** The keyset form lists everything exactly when no task has the empty id. */
  lemma KeysetCompleteExactly(l: seq<Task>, limit: int)
    requires Ascending(l) && 1 <= limit
    ensures Complete(Keyset, l, limit) <==> NoEmptyId(l)
  {
    if NoEmptyId(l) {
      FaithfulIsComplete(Keyset, l, limit);
    } else {
      forall n: nat
        ensures !Completed(Keyset, l, limit, n)
      {
        KeysetSkipsEmpty(l, limit, n);
      }
    }
  }

  lemma {:induction false} WalkLoops(serve: Cursor -> Result<Page, Error>, n: nat)
    requires serve(NoCursor).Ok? && serve(NoCursor).value.next == Some(NoCursor)
    ensures !Ended(Walked(serve, NoCursor, n))
  {
    if n > 0 {
      WalkLoops(serve, n - 1);
    }
  }

  /** A first page of one task with the empty id points back at itself. */
  lemma EmptyIdLoops(l: seq<Task>, n: nat)
    requires |l| > 1 && l[0].id == ""
    ensures !Ended(Follow(Memory, l, 1, NoCursor, n))
  {
    assert PageAt(l, 1, 0).next == Some(NoCursor);
    WalkLoops(c => PageOf(Memory, l, 1, c), n);
  }

  /**
   The in-memory form lists everything exactly unless pages of one start with an empty id; then the walk never
   ends.
   */
  lemma MemoryCompleteExactly(l: seq<Task>, limit: int)
    requires Ascending(l) && 1 <= limit
    ensures Complete(Memory, l, limit) <==> !(limit == 1 && |l| > 1 && l[0].id == "")
  {
    if limit == 1 && |l| > 1 && l[0].id == "" {
      forall n: nat
        ensures !Completed(Memory, l, limit, n)
      {
        EmptyIdLoops(l, n);
      }
    } else {
      FaithfulIsComplete(Memory, l, limit);
    }
  }

  // ---- The two stores against each other ------------------------------------------------------------

  lemma SameFollow(l: seq<Task>, limit: int, n: nat)
    requires Ascending(l) && 1 <= limit && NoEmptyId(l)
    ensures Follow(Memory, l, limit, NoCursor, n) == Follow(Keyset, l, limit, NoCursor, n)
  {
    FollowIsPages(Memory, l, limit, n);
    FollowIsPages(Keyset, l, limit, n);
  }

  lemma JoinedFollow(store: Store, l: seq<Task>, limit: int, n: nat)
    requires Ascending(l) && 1 <= limit && NoEmptyId(l) && |l| < n
    ensures Joined(Follow(store, l, limit, NoCursor, n)) == l
  {
    ProductGrows(n, limit);
    FollowIsPages(store, l, limit, n);
    PagesCover(l, limit, 0, n);
    assert l[0..] == l;
  }

  /** The two stores hand out the same pages, one after the other. */
  ghost predicate SamePages(memory: seq<Task>, table: seq<Task>, limit: int)
    requires 1 <= limit
  {
    forall n: nat :: Follow(Memory, memory, limit, NoCursor, n) == Follow(Keyset, table, limit, NoCursor, n)
  }

  lemma SamePagesExactly(memory: seq<Task>, table: seq<Task>, limit: int)
    requires 1 <= limit && Ascending(memory) && Ascending(table)
    requires NoEmptyId(memory) && NoEmptyId(table)
    ensures SamePages(memory, table, limit) <==> memory == table
  {
    if memory == table {
      forall n: nat
        ensures Follow(Memory, memory, limit, NoCursor, n) == Follow(Keyset, table, limit, NoCursor, n)
      {
        SameFollow(memory, limit, n);
      }
    } else {
      var n := |memory| + |table| + 1;
      JoinedFollow(Memory, memory, limit, n);
      JoinedFollow(Keyset, table, limit, n);
    }
  }

  /** The two stores give the same pages, one after the other, exactly when the priority bounds exclude nothing. */
  lemma StoresAgreeExactly(memory: seq<Task>, table: seq<Task>, tasks: map<string, Task>, f: Filter, limit: int)
    requires 1 <= limit && forall id <- tasks :: id != ""
    requires IsListing(memory, tasks, f) && IsListing(table, tasks, f.(priorityMin := 0, priorityMax := 0))
    ensures SamePages(memory, table, limit) <==> forall t <- table :: WithinPriority(t, f)
  {
    SamePagesExactly(memory, table, limit);
    if forall t <- table :: WithinPriority(t, f) {
      ListingIsUnique(memory, table);
    } else {
      var t :| t in table && !WithinPriority(t, f);
      assert t !in memory;
    }
  }

  lemma {:induction false} BeyondIsBeyond(l: seq<Task>, after: string)
    ensures forall t <- Beyond(l, after) :: Less(after, t.id)
  {
    if l != [] {
      BeyondIsBeyond(l[..|l| - 1], after);
    }
  }

  lemma {:induction false} FrontPage(l: seq<Task>, limit: int)
    requires 1 <= limit
    ensures PageAt(l, limit, 0) == FirstPage(l, limit)
  {
    assert l[0..|l|] == l;
    assert |l| > limit ==> l[..limit] == l[0..limit];
  }

  lemma {:induction false} BeyondFront(l: seq<Task>, id: string)
    requires Ascending(l) && (l == [] || Less(id, l[0].id))
    ensures Beyond(l, id) == l
  {
    forall i | 0 <= i < |l|
      ensures Less(id, l[i].id)
    {
      if i > 0 {
        LessIsTransitive(id, l[0].id, l[i].id);
      }
    }
    BeyondIsSuffix(l, 0, id);
    assert l[0..] == l;
  }

  lemma {:induction false} LostCursorAtFront(l: seq<Task>, limit: int, id: string)
    requires Ascending(l) && 1 <= limit && id != "" && forall t <- l :: t.id != id
    requires l == [] || Less(id, l[0].id)
    ensures MemoryPage(l, limit, After(id)) == KeysetPage(l, limit, After(id))
  {
    BeyondFront(l, id);
    FrontPage(l, limit);
    LostCursorRestarts(l, id);
  }

  lemma {:induction false} LostCursorRestarts(l: seq<Task>, id: string)
    requires forall t <- l :: t.id != id
    ensures StartAfter(l, id) == 0
  {
    if l != [] {
      LostCursorRestarts(l[..|l| - 1], id);
      assert l[|l| - 1] in l;
    }
  }

  lemma LostCursorInside(l: seq<Task>, limit: int, id: string)
    requires 1 <= limit && l != [] && !Less(id, l[0].id) && forall t <- l :: t.id != id
    ensures MemoryPage(l, limit, After(id)) != KeysetPage(l, limit, After(id))
  {
    assert MemoryPage(l, limit, After(id)).value.tasks[0] == l[0];
    BeyondIsBeyond(l, id);
    var page := KeysetPage(l, limit, After(id)).value;
    assert page.tasks != [] ==> page.tasks[0] in Beyond(l, id);
  }

  /**
   A cursor whose task is gone: the in-memory store starts over, the keyset goes on; they agree exactly when
   nothing precedes the cursor.
   */
  lemma LostCursorAgreesExactly(l: seq<Task>, limit: int, id: string)
    requires Ascending(l) && 1 <= limit && id != "" && forall t <- l :: t.id != id
    ensures MemoryPage(l, limit, After(id)) == KeysetPage(l, limit, After(id)) <==> (l == [] || Less(id, l[0].id))
  {
    if l == [] || Less(id, l[0].id) {
      LostCursorAtFront(l, limit, id);
    } else {
      LostCursorInside(l, limit, id);
    }
  }
}

/** The two stores as they run, and the service in front of them. */
module PagingStores {
  import opened Ordering
  import opened Results
  import opened Paging
  import opened PagingLaws
  import opened Text

  ghost predicate DistinctIds(values: seq<Task>) {
    forall i, j :: 0 <= i < j < |values| ==> values[i].id != values[j].id
  }

  lemma InsertedAscends(l: seq<Task>, t: Task, j: nat)
    requires Ascending(l) && j <= |l| && forall x <- l :: x.id != t.id
    requires j > 0 ==> !Less(t.id, l[j - 1].id)
    requires j < |l| ==> Less(t.id, l[j].id)
    ensures Ascending(l[..j] + [t] + l[j..])
  {
    var after := l[..j] + [t] + l[j..];
    forall i | 0 <= i < |l|
      ensures if i < j then Less(l[i].id, t.id) else Less(t.id, l[i].id)
    {
      assert l[i] in l;
      if i < j {
        LessIsTotal(l[j - 1].id, t.id);
        assert l[j - 1] in l;
        if i < j - 1 {
          LessIsTransitive(l[i].id, l[j - 1].id, t.id);
        }
      } else if i > j {
        LessIsTransitive(t.id, l[j].id, l[i].id);
      }
    }
    assert forall i :: 0 <= i < j ==> after[i] == l[i];
    assert forall i :: j < i < |after| ==> after[i] == l[i - 1];
  }

  /** The order that `sort.Slice` is asked for. */
  method SortById(values: seq<Task>) returns (sorted: seq<Task>)
    requires DistinctIds(values)
    ensures Ascending(sorted) && forall t :: t in sorted <==> t in values
  {
    sorted := [];
    for i := 0 to |values|
      invariant Ascending(sorted) && forall t :: t in sorted <==> t in values[..i]
    {
      var t := values[i];
      var j := |sorted|;
      while j > 0 && Less(t.id, sorted[j - 1].id)
        invariant 0 <= j <= |sorted| && (j < |sorted| ==> Less(t.id, sorted[j].id))
      {
        j := j - 1;
      }
      assert values[..i + 1] == values[..i] + [t];
      forall x | x in sorted
        ensures x.id != t.id
      {
        var k :| 0 <= k < i && values[k] == x;
      }
      InsertedAscends(sorted, t, j);
      assert sorted == sorted[..j] + sorted[j..];
      sorted := sorted[..j] + [t] + sorted[j..];
    }
    assert values[..|values|] == values;
  }

  class MemoryStore {
    var tasks: map<string, Task>

    ghost predicate Valid()
      reads this
    {
      forall id <- tasks :: tasks[id].id == id
    }

    constructor (values: seq<Task>)
      ensures Valid()
      ensures tasks.Keys == set t <- values :: t.id
    {
      var stored: map<string, Task> := map[];
      for i := 0 to |values|
        invariant forall id <- stored :: stored[id].id == id
        invariant stored.Keys == set t <- values[..i] :: t.id
      {
        stored := stored[values[i].id := values[i]];
        assert values[..i + 1] == values[..i] + [values[i]];
      }
      assert values[..|values|] == values;
      tasks := stored;
    }

    /** The filter loop over the map, in whatever order it is ranged over. */
    method Collect(f: Filter) returns (values: seq<Task>)
      requires Valid()
      ensures DistinctIds(values)
      ensures forall t :: t in values <==> t.id in tasks && tasks[t.id] == t && Visible(t, f)
    {
      values := [];
      var rest := tasks.Keys;
      while rest != {}
        invariant rest <= tasks.Keys && DistinctIds(values)
        invariant forall t :: t in values <==> t.id in tasks.Keys - rest && tasks[t.id] == t && Visible(t, f)
        decreases |rest|
      {
        var id :| id in rest;
        rest := rest - {id};
        var task := tasks[id];
        if task.warehouse != f.warehouse {
          continue;
        }
        if task.operator.Some? && task.operator.value != f.operator {
          continue;
        }
        if f.category != "" && task.category != f.category {
          continue;
        }
        if f.status != "" && task.status != f.status {
          continue;
        }
        if f.query != "" && !FoldContains(task.id, f.query) {
          continue;
        }
        if f.priorityMin > 0 && task.priority < f.priorityMin {
          continue;
        }
        if f.priorityMax > 0 && task.priority > f.priorityMax {
          continue;
        }
        assert forall k :: 0 <= k < |values| ==> values[k] in values;
        values := values + [task];
      }
    }

    method List(f: Filter) returns (r: Result<Page, Error>)
      requires Valid() && 1 <= f.limit
      ensures exists l :: IsListing(l, tasks, f) && r == MemoryPage(l, f.limit, f.cursor)
    {
      var values := Collect(f);
      values := SortById(values);
      assert IsListing(values, tasks, f);
      r := SlicePage(values, f.limit, f.cursor);
    }
  }

  /** The cursor and the slice of a sorted list. */
  method SlicePage(values: seq<Task>, limit: int, cursor: Cursor) returns (r: Result<Page, Error>)
    requires Ascending(values) && 1 <= limit
    ensures r == MemoryPage(values, limit, cursor)
  {
    var start := 0;
    if cursor.Undecodable? {
      return Err(InvalidCursor);
    }
    if cursor.After? {
      start := FindStart(values, cursor.id);
    }
    var end := start + limit;
    if end > |values| {
      end := |values|;
    }
    var next: Option<Cursor> := None;
    if end < |values| {
      next := Some(Encode(values[end - 1].id));
    }
    r := Ok(Page(values[start..end], next));
  }

  /** The cursor search: one past the task with the id, or 0. */
  method FindStart(values: seq<Task>, id: string) returns (start: nat)
    requires Ascending(values)
    ensures start == StartAfter(values, id)
  {
    for index := 0 to |values|
      invariant forall i :: 0 <= i < index ==> values[i].id != id
    {
      if values[index].id == id {
        StartAfterAt(values, index);
        return index + 1;
      }
    }
    return 0;
  }

  /** The rows the keyset query selects, in the order of the table. */
  function Selected(rows: seq<Task>, f: Filter, after: string): seq<Task> {
    if rows == [] then []
    else
      var last := rows[|rows| - 1];
      Selected(rows[..|rows| - 1], f, after) + if Matches(last, f) && Less(after, last.id) then [last] else []
  }

  function Matching(rows: seq<Task>, f: Filter): seq<Task> {
    if rows == [] then []
    else Matching(rows[..|rows| - 1], f) + if Matches(rows[|rows| - 1], f) then [rows[|rows| - 1]] else []
  }

  lemma {:induction false} SelectedIsBeyond(rows: seq<Task>, f: Filter, after: string)
    ensures Selected(rows, f, after) == Beyond(Matching(rows, f), after)
  {
    if rows != [] {
      SelectedIsBeyond(rows[..|rows| - 1], f, after);
      var init := Matching(rows[..|rows| - 1], f);
      if Matches(rows[|rows| - 1], f) {
        assert (init + [rows[|rows| - 1]])[..|init|] == init;
      } else {
        assert init + [] == init;
      }
    }
  }

  lemma {:induction false} SelectedPrefix(rows: seq<Task>, n: nat, f: Filter, after: string)
    requires n <= |rows|
    ensures Selected(rows[..n], f, after) <= Selected(rows, f, after)
  {
    if n < |rows| {
      SelectedPrefix(rows[..|rows| - 1], n, f, after);
      assert rows[..|rows| - 1][..n] == rows[..n];
    } else {
      assert rows[..n] == rows;
    }
  }

  /** LIMIT n + 1 rows are enough to build the page and to see whether another one follows. */
  lemma PrefixDecides(items: seq<Task>, rest: seq<Task>, limit: int)
    requires 1 <= limit && items <= rest && (|items| == limit + 1 || items == rest)
    ensures FirstPage(items, limit) == FirstPage(rest, limit)
  {
  }

  /** The matching rows of the table are the listing of its tasks without priority bounds. */
  lemma {:induction false} MatchingLists(rows: seq<Task>, f: Filter)
    requires Ascending(rows)
    ensures Ascending(Matching(rows, f))
    ensures forall t :: t in Matching(rows, f) <==> t in rows && Visible(t, f.(priorityMin := 0, priorityMax := 0))
  {
    if rows != [] {
      var init, last := rows[..|rows| - 1], rows[|rows| - 1];
      MatchingLists(init, f);
      assert rows == init + [last];
      forall t | t in Matching(init, f)
        ensures Less(t.id, last.id)
      {
        assert t in init;
      }
      assert forall i :: 0 <= i < |Matching(init, f)| ==> Matching(init, f)[i] in Matching(init, f);
    }
  }

  class KeysetStore {
    /** The table, in the order of its primary key. */
    var rows: seq<Task>

    /** SELECT ... WHERE ... AND task_id > after ORDER BY task_id LIMIT limit + 1. */
    method Query(f: Filter, after: string) returns (items: seq<Task>)
      requires 1 <= f.limit
      ensures items <= Selected(rows, f, after)
      ensures |items| == f.limit + 1 || (|items| <= f.limit && items == Selected(rows, f, after))
    {
      items := [];
      var i := 0;
      while i < |rows| && |items| < f.limit + 1
        invariant i <= |rows| && |items| <= f.limit + 1
        invariant items == Selected(rows[..i], f, after)
      {
        assert rows[..i + 1][..i] == rows[..i];
        if Matches(rows[i], f) && Less(after, rows[i].id) {
          items := items + [rows[i]];
        }
        i := i + 1;
      }
      SelectedPrefix(rows, i, f, after);
      assert i == |rows| ==> rows[..i] == rows;
    }

    method List(f: Filter) returns (r: Result<Page, Error>)
      requires 1 <= f.limit
      ensures r == KeysetPage(Matching(rows, f), f.limit, f.cursor)
    {
      var after := "";
      if f.cursor.Undecodable? {
        return Err(InvalidCursor);
      }
      if f.cursor.After? {
        after := f.cursor.id;
      }
      var items := Query(f, after);
      SelectedIsBeyond(rows, f, after);
      PrefixDecides(items, Selected(rows, f, after), f.limit);
      var next: Option<Cursor> := None;
      if |items| > f.limit {
        next := Some(Encode(items[f.limit - 1].id));
        items := items[..f.limit];
      }
      r := Ok(Page(items, next));
    }
  }

  /**
   `TaskService.List` over the in-memory store: the actor's own warehouse and operator, and a limit between 1
   and 100.
   */
  method ListTasks(store: MemoryStore, f: Filter, warehouse: string, operator: string) returns (r: Result<Page, Error>)
    requires store.Valid()
    ensures f.warehouse != warehouse ==> r == Err(WarehouseDenied)
    ensures f.warehouse == warehouse ==>
              exists l :: IsListing(l, store.tasks, f.(operator := operator)) && r == MemoryPage(l, ClampLimit(f.limit), f.cursor)
  {
    if f.warehouse != warehouse {
      return Err(WarehouseDenied);
    }
    var filter := f.(operator := operator);
    if filter.limit < 1 || filter.limit > 100 {
      filter := filter.(limit := 20);
    }
    r := store.List(filter);
    ghost var l :| IsListing(l, store.tasks, filter) && r == MemoryPage(l, filter.limit, filter.cursor);
    LimitIsNoFilter(l, store.tasks, f.(operator := operator), filter.limit);
  }

  lemma LimitIsNoFilter(l: seq<Task>, tasks: map<string, Task>, f: Filter, limit: int)
    ensures IsListing(l, tasks, f.(limit := limit)) <==> IsListing(l, tasks, f)
  {
    assert forall t: Task :: Visible(t, f.(limit := limit)) == Visible(t, f);
  }

  // ---- From table to pages ------------------------------------------------------------------------

  /** What the in-memory store answers for a cursor. */
  ghost predicate Answers(r: Result<Page, Error>, tasks: map<string, Task>, f: Filter, cursor: Cursor) {
    exists l :: IsListing(l, tasks, f) && r == MemoryPage(l, ClampLimit(f.limit), cursor)
  }

  lemma {:induction false} ListingFits(l: seq<Task>, tasks: map<string, Task>, f: Filter)
    requires IsListing(l, tasks, f)
    ensures |l| <= |tasks|
  {
    IdsFit(l, tasks.Keys);
  }

  lemma {:induction false} IdsFit(l: seq<Task>, ids: set<string>)
    requires Ascending(l) && forall t <- l :: t.id in ids
    ensures |l| <= |ids|
  {
    if l != [] {
      var n := |l| - 1;
      assert l[n] in l;
      forall t | t in l[..n]
        ensures t.id in ids - {l[n].id}
      {
        NotBeforeLast(l);
        var i :| 0 <= i < n && l[i] == t;
        LessIsTotal(l[i].id, l[n].id);
      }
      IdsFit(l[..n], ids - {l[n].id});
    }
  }

  lemma {:induction false} AnswersDecide(serve: Cursor -> Result<Page, Error>, tasks: map<string, Task>, f: Filter, l: seq<Task>, c: Cursor)
    requires IsListing(l, tasks, f) && Answers(serve(c), tasks, f, c)
    ensures serve(c) == MemoryPage(l, ClampLimit(f.limit), c)
  {
    var k :| IsListing(k, tasks, f) && serve(c) == MemoryPage(k, ClampLimit(f.limit), c);
    forall t
      ensures t in k <==> t in l
    {
    }
    ListingIsUnique(k, l);
  }

  /**
   The in-memory store, end to end: over any task map without an empty id and for any filter, following
   the cursors that its pages hand out ends within ceil(|tasks| / limit) pages, and the pages joined
   are the visible tasks by id, each once.
   */
  lemma {:induction false} MemoryPagesAreTheTasks(serve: Cursor -> Result<Page, Error>, tasks: map<string, Task>, f: Filter, n: nat)
    requires (forall id <- tasks :: id != "") && forall c :: Answers(serve(c), tasks, f, c)
    requires 1 <= n && |tasks| <= n * ClampLimit(f.limit)
    ensures var walk := Walked(serve, NoCursor, n);
            Ended(walk) && IsListing(Joined(walk), tasks, f)
  {
    var limit := ClampLimit(f.limit);
    assert Answers(serve(NoCursor), tasks, f, NoCursor);
    var l :| IsListing(l, tasks, f) && serve(NoCursor) == MemoryPage(l, limit, NoCursor);
    ListingFits(l, tasks, f);
    forall s: nat | s <= |l| && (s == 0 || limit <= s < |l|)
      ensures serve(CursorAt(l, s)) == Ok(PageAt(l, limit, s))
    {
      AnswersDecide(serve, tasks, f, l, CursorAt(l, s));
      FaithfulAt(Memory, l, limit, s);
    }
    WalkIsPages(serve, l, limit, 0, n);
    PagesCover(l, limit, 0, n);
    assert l[0..] == l;
  }

  lemma {:induction false} MatchingFits(rows: seq<Task>, f: Filter)
    ensures |Matching(rows, f)| <= |rows|
  {
    if rows != [] {
      MatchingFits(rows[..|rows| - 1], f);
    }
  }

  /**
   The keyset store, end to end: over any table without an empty id, the pages joined are its matching rows, in
   order, each once.
   */
  lemma {:induction false} KeysetPagesAreTheRows(rows: seq<Task>, f: Filter, n: nat)
    requires Ascending(rows) && NoEmptyId(rows) && 1 <= n && |rows| <= n * ClampLimit(f.limit)
    ensures var walk := Follow(Keyset, Matching(rows, f), ClampLimit(f.limit), NoCursor, n);
            && Ended(walk) && Ascending(Joined(walk))
            && forall t :: t in Joined(walk) <==> t in rows && Visible(t, f.(priorityMin := 0, priorityMax := 0))
  {
    MatchingFits(rows, f);
    MatchingLists(rows, f);
    PagesAreTheListing(Keyset, Matching(rows, f), f.limit, n);
  }

  // ---- Whose tasks, and which ---------------------------------------------------------------------

  /** The letters asked for, case aside, from place `i` of the id on. */
  predicate SpelledAt(id: string, query: string, i: nat) {
    i + |query| <= |id| && forall k :: i <= k < i + |query| ==> SameLetter(id[k], query[k - i])
  }

  /** The id has the letters asked for somewhere, in a row, case aside. */
  predicate Spells(id: string, query: string) {
    exists i | 0 <= i <= |id| :: SpelledAt(id, query, i)
  }

  lemma {:induction false} SpelledExactly(id: string, query: string, i: nat)
    ensures FoldAt(id, query, i) <==> SpelledAt(id, query, i)
  {
    if i + |query| <= |id| {
      var part := id[i..i + |query|];
      EqualFoldExactly(part, query);
      if forall k :: 0 <= k < |part| ==> SameLetter(part[k], query[k]) {
        forall k | i <= k < i + |query|
          ensures SameLetter(id[k], query[k - i])
        {
          assert part[k - i] == id[k];
        }
      }
      if SpelledAt(id, query, i) {
        forall k | 0 <= k < |part|
          ensures SameLetter(part[k], query[k])
        {
          assert part[k] == id[i + k];
          assert SameLetter(id[i + k], query[i + k - i]);
        }
      }
    }
  }

  lemma {:induction false} SpellsExactly(id: string, query: string)
    ensures FoldContains(id, query) <==> Spells(id, query)
  {
    forall i: nat
      ensures FoldAt(id, query, i) <==> SpelledAt(id, query, i)
    {
      SpelledExactly(id, query, i);
    }
  }

  /** A task that an operator may see: of the warehouse, and nobody's or the operator's. */
  predicate MaySee(t: Task, warehouse: string, operator: string) {
    t.warehouse == warehouse && (t.operator == None || t.operator == Some(operator))
  }

  /** A task that was asked for; an empty category, status or query asks for all. */
  predicate AskedFor(t: Task, f: Filter) {
    && (f.category == "" || t.category == f.category) && (f.status == "" || t.status == f.status)
    && (f.query == "" || Spells(t.id, f.query))
  }

  /** Priority bounds that are not positive ask for nothing. */
  predicate InBounds(t: Task, f: Filter) {
    (f.priorityMin <= 0 || f.priorityMin <= t.priority) && (f.priorityMax <= 0 || t.priority <= f.priorityMax)
  }

  lemma {:induction false} VisibleExactly(t: Task, f: Filter)
    ensures Visible(t, f) <==> MaySee(t, f.warehouse, f.operator) && AskedFor(t, f) && InBounds(t, f)
    ensures Matches(t, f) <==> MaySee(t, f.warehouse, f.operator) && AskedFor(t, f)
  {
    SpellsExactly(t.id, f.query);
  }

  /**
   The task list of an operator, end to end: the pages of the in-memory store, followed to their end, hold a task
   exactly when it is stored, may be seen, was asked for, and is within the priority bounds.
   */
  lemma {:induction false} MemoryShowsExactly(
      serve: Cursor -> Result<Page, Error>, tasks: map<string, Task>, f: Filter, n: nat, t: Task)
    requires (forall id <- tasks :: id != "") && forall c :: Answers(serve(c), tasks, f, c)
    requires 1 <= n && |tasks| <= n * ClampLimit(f.limit)
    ensures t in Joined(Walked(serve, NoCursor, n)) <==>
              && t.id in tasks && tasks[t.id] == t
              && MaySee(t, f.warehouse, f.operator) && AskedFor(t, f) && InBounds(t, f)
  {
    MemoryPagesAreTheTasks(serve, tasks, f, n);
    VisibleExactly(t, f);
  }

  /** The keyset store holds the same, whatever the priority bounds. */
  lemma {:induction false} KeysetShowsExactly(rows: seq<Task>, f: Filter, n: nat, t: Task)
    requires Ascending(rows) && NoEmptyId(rows) && 1 <= n && |rows| <= n * ClampLimit(f.limit)
    ensures t in Joined(Follow(Keyset, Matching(rows, f), ClampLimit(f.limit), NoCursor, n)) <==>
              t in rows && MaySee(t, f.warehouse, f.operator) && AskedFor(t, f)
  {
    KeysetPagesAreTheRows(rows, f, n);
    VisibleExactly(t, f.(priorityMin := 0, priorityMax := 0));
    VisibleExactly(t, f);
  }

  /** A cursor is refused exactly when it does not decode; the cursor of a page is the id of its last task. */
  lemma {:induction false} CursorExactly(store: Store, l: seq<Task>, limit: int, cursor: Cursor)
    requires 1 <= limit
    ensures PageOf(store, l, limit, cursor) == Err(InvalidCursor) <==> cursor == Undecodable
    ensures PageOf(store, l, limit, cursor).Ok? ==>
              var page := PageOf(store, l, limit, cursor).value;
              && |page.tasks| <= limit
              && (page.next.Some? ==> |page.tasks| == limit
                                      && page.next.value == if page.tasks[limit - 1].id == "" then NoCursor
                                                            else After(page.tasks[limit - 1].id))
  {
  }
}
