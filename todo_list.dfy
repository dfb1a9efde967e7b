/**
 * The records of the todo store and the pure list operations its methods are
 * specified by: keeping the records that satisfy a test (`Array.prototype.filter`),
 * finding the first record with an id (`Array.prototype.find`), and the
 * effect of toggling, renaming and deleting on the whole list.
 */
module TodoList {
  import opened Wrappers
  import opened Text

  /** One task record. `id` and `createdAt` are clock readings in milliseconds. */
  datatype Todo = Todo(id: int, title: string, completed: bool, createdAt: int)

  /** The result of `getStats()`. */
  datatype Stats = Stats(total: int, completed: int, active: int)

  function Done(t: Todo): bool { t.completed }

  function Pending(t: Todo): bool { !t.completed }

  /** The test `t => t.id !== id` used by `delete`. */
  function OtherThan(id: int): Todo -> bool {
    (t: Todo) => t.id != id
  }

  /** `r` is obtained from `s` by dropping some elements, keeping the order of the rest. */
  predicate SubsequenceOf(r: seq<Todo>, s: seq<Todo>)
    decreases |s|
  {
    if r == [] then true
    else if s == [] then false
    else if r[0] == s[0] then SubsequenceOf(r[1..], s[1..])
    else SubsequenceOf(r, s[1..])
  }

  lemma {:induction false} SubsequenceOfSelf(s: seq<Todo>)
    ensures SubsequenceOf(s, s)
  {
    if s != [] {
      SubsequenceOfSelf(s[1..]);
    }
  }

  /** `s.filter(p)`: the records of `s` that satisfy `p`. */
  function Keep(s: seq<Todo>, p: Todo -> bool): (r: seq<Todo>)
    ensures |r| <= |s|
    ensures forall i :: 0 <= i < |r| ==> p(r[i])
  {
    if s == [] then []
    else if p(s[0]) then [s[0]] + Keep(s[1..], p)
    else Keep(s[1..], p)
  }

  /** Each record is kept exactly as often as it occurs in `s` when it passes
      the test, and not at all otherwise. */
  lemma {:induction false} KeepCounts(s: seq<Todo>, p: Todo -> bool)
    ensures forall t :: multiset(Keep(s, p))[t] == if p(t) then multiset(s)[t] else 0
  {
    if s != [] {
      KeepCounts(s[1..], p);
      assert s == [s[0]] + s[1..];
    }
  }

  /** The kept records appear in `s` in the same order. */
  lemma {:induction false} KeepOrder(s: seq<Todo>, p: Todo -> bool)
    ensures SubsequenceOf(Keep(s, p), s)
  {
    if s != [] {
      KeepOrder(s[1..], p);
      var rest := Keep(s[1..], p);
      if p(s[0]) {
        assert ([s[0]] + rest)[1..] == rest;
      } else {
        assert rest != [] ==> rest[0] != s[0];
      }
    }
  }

  /** Filtering distributes over concatenation: the relative order of the kept
      records is that of the input. */
  lemma {:induction false} KeepConcat(a: seq<Todo>, b: seq<Todo>, p: Todo -> bool)
    ensures Keep(a + b, p) == Keep(a, p) + Keep(b, p)
  {
    if a == [] {
      assert a + b == b;
    } else {
      var ab := a + b;
      assert ab[0] == a[0] && ab[1..] == a[1..] + b;
      KeepConcat(a[1..], b, p);
      if p(a[0]) {
        assert [a[0]] + (Keep(a[1..], p) + Keep(b, p)) == ([a[0]] + Keep(a[1..], p)) + Keep(b, p);
      }
    }
  }

  /** Filtering keeps a list whose records all pass unchanged. */
  lemma {:induction false} KeepAllPass(s: seq<Todo>, p: Todo -> bool)
    requires forall i :: 0 <= i < |s| ==> p(s[i])
    ensures Keep(s, p) == s
  {
    if s != [] {
      KeepAllPass(s[1..], p);
    }
  }

  /** Filtering twice with the same test is filtering once. */
  lemma KeepIdempotent(s: seq<Todo>, p: Todo -> bool)
    ensures Keep(Keep(s, p), p) == Keep(s, p)
  {
    KeepAllPass(Keep(s, p), p);
  }

  /** Every record is either completed or not: the two filters split the list. */
  lemma {:induction false} DonePendingSplit(s: seq<Todo>)
    ensures |Keep(s, Done)| + |Keep(s, Pending)| == |s|
  {
    if s != [] {
      DonePendingSplit(s[1..]);
    }
  }

  /** After dropping the completed records none is completed. */
  lemma NoneDoneAfterClear(s: seq<Todo>)
    ensures Keep(Keep(s, Pending), Done) == []
  {
  }

  predicate Contains(s: seq<Todo>, id: int) {
    exists i :: 0 <= i < |s| && s[i].id == id
  }

  /** Position of the first record with `id`, as `find` locates it. */
  function FirstIndex(s: seq<Todo>, id: int): (r: Option<nat>)
    ensures r.None? <==> !Contains(s, id)
    ensures r.Some? ==> r.value < |s| && s[r.value].id == id &&
                        forall j :: 0 <= j < r.value ==> s[j].id != id
  {
    if s == [] then None
    else if s[0].id == id then Some(0)
    else
      match FirstIndex(s[1..], id)
      case None =>
        assert forall i :: 1 <= i < |s| ==> s[i] == s[1..][i - 1];
        None
      case Some(k) =>
        assert forall j :: 1 <= j < k + 1 ==> s[j] == s[1..][j - 1];
        Some(k + 1)
  }

  /** The same records in the same places carry the same ids. */
  predicate SameIds(a: seq<Todo>, b: seq<Todo>) {
    |a| == |b| && forall i :: 0 <= i < |a| ==> a[i].id == b[i].id
  }

  lemma {:induction false} FirstIndexSameIds(a: seq<Todo>, b: seq<Todo>, id: int)
    requires SameIds(a, b)
    ensures FirstIndex(a, id) == FirstIndex(b, id)
  {
    if a != [] && a[0].id != id {
      FirstIndexSameIds(a[1..], b[1..], id);
    }
  }

  /** `toggle(id)`: the first record with `id` has its `completed` flag flipped;
      every other record, and every other field, stays as it was. */
  function Toggled(s: seq<Todo>, id: int): (r: seq<Todo>)
    ensures SameIds(r, s)
    ensures forall i :: 0 <= i < |s| ==>
              r[i].title == s[i].title && r[i].createdAt == s[i].createdAt &&
              (r[i].completed != s[i].completed <==> FirstIndex(s, id) == Some(i))
    ensures !Contains(s, id) ==> r == s
  {
    match FirstIndex(s, id)
    case None => s
    case Some(k) => s[k := s[k].(completed := !s[k].completed)]
  }

  /** Toggling twice restores the list. */
  lemma ToggleTwice(s: seq<Todo>, id: int)
    ensures Toggled(Toggled(s, id), id) == s
  {
    FirstIndexSameIds(Toggled(s, id), s, id);
  }

  /** `update(id, title)` after trimming: the first record with `id` gets
      `title`; its id, flag and creation time and all other records stay. */
  function Renamed(s: seq<Todo>, id: int, title: string): (r: seq<Todo>)
    ensures SameIds(r, s)
    ensures forall i :: 0 <= i < |s| ==>
              r[i].completed == s[i].completed && r[i].createdAt == s[i].createdAt &&
              r[i].title == if FirstIndex(s, id) == Some(i) then title else s[i].title
    ensures !Contains(s, id) ==> r == s
  {
    match FirstIndex(s, id)
    case None => s
    case Some(k) => s[k := s[k].(title := title)]
  }

  /** `delete(id)`: no record with `id` is left. */
  function WithoutId(s: seq<Todo>, id: int): (r: seq<Todo>)
    ensures !Contains(r, id)
  {
    Keep(s, OtherThan(id))
  }

  /** `delete(id)` keeps every other record, as often as it occurred, in its
      original relative order. */
  lemma DeleteKeepsOthers(s: seq<Todo>, id: int)
    ensures SubsequenceOf(WithoutId(s, id), s)
    ensures forall t: Todo :: t.id != id ==> multiset(WithoutId(s, id))[t] == multiset(s)[t]
  {
    KeepCounts(s, OtherThan(id));
    KeepOrder(s, OtherThan(id));
  }

  /** Deleting an id nobody has leaves the list as it was. */
  lemma DeleteAbsent(s: seq<Todo>, id: int)
    requires !Contains(s, id)
    ensures WithoutId(s, id) == s
  {
    KeepAllPass(s, OtherThan(id));
  }

  predicate UniqueIds(s: seq<Todo>) {
    forall i, j :: 0 <= i < j < |s| ==> s[i].id != s[j].id
  }

  /** When ids are unique, `delete` removes the one record `toggle` and
      `update` would find. */
  lemma DeleteUniqueRemovesFirst(s: seq<Todo>, id: int, k: nat)
    requires UniqueIds(s)
    requires FirstIndex(s, id) == Some(k)
    ensures WithoutId(s, id) == s[..k] + s[k + 1..]
  {
    UniqueTail(s, k);
    DeleteOnlyMatch(s, id, k);
  }

  /** Deleting an id that occurs once removes that one record. */
  lemma {:induction false} DeleteOnlyMatch(s: seq<Todo>, id: int, k: nat)
    requires FirstIndex(s, id) == Some(k)
    requires !Contains(s[k + 1..], id)
    ensures WithoutId(s, id) == s[..k] + s[k + 1..]
  {
    if k == 0 {
      DeleteAbsent(s[1..], id);
    } else {
      var t := s[1..];
      assert t[k..] == s[k + 1..];
      assert FirstIndex(t, id) == Some(k - 1) by {
        assert forall j :: 0 <= j < k - 1 ==> t[j] == s[j + 1];
      }
      DeleteOnlyMatch(t, id, k - 1);
      assert [s[0]] + t[..k - 1] == s[..k];
    }
  }

  lemma UniqueTail(s: seq<Todo>, k: nat)
    requires UniqueIds(s) && k < |s|
    ensures !Contains(s[k + 1..], s[k].id)
  {
    var v := s[k + 1..];
    forall i | 0 <= i < |v| ensures v[i].id != s[k].id {
      assert v[i] == s[k + 1 + i];
    }
  }

  /** Adding at the head keeps ids unique exactly when the new id is fresh. */
  lemma AddUnique(s: seq<Todo>, t: Todo)
    requires UniqueIds(s)
    ensures UniqueIds([t] + s) <==> !Contains(s, t.id)
  {
    if !Contains(s, t.id) {
      forall i, j | 0 <= i < j < |[t] + s| ensures ([t] + s)[i].id != ([t] + s)[j].id {
        if i > 0 { assert ([t] + s)[i] == s[i - 1]; }
        assert ([t] + s)[j] == s[j - 1];
      }
    } else {
      var i :| 0 <= i < |s| && s[i].id == t.id;
      assert ([t] + s)[0].id == ([t] + s)[i + 1].id;
    }
  }

  /** Toggling and renaming keep every id in place, so they keep ids unique. */
  lemma SameIdsUnique(a: seq<Todo>, b: seq<Todo>)
    requires SameIds(a, b) && UniqueIds(b)
    ensures UniqueIds(a)
  {
    forall i, j | 0 <= i < j < |a| ensures a[i].id != a[j].id {
      assert a[i].id == b[i].id && a[j].id == b[j].id;
    }
  }

  /** Filtering keeps ids unique. */
  lemma {:induction false} KeepUnique(s: seq<Todo>, p: Todo -> bool)
    requires UniqueIds(s)
    ensures UniqueIds(Keep(s, p))
  {
    if s != [] {
      KeepUnique(s[1..], p);
      var rest := Keep(s[1..], p);
      if p(s[0]) {
        KeepCounts(s[1..], p);
        forall j | 0 <= j < |rest| ensures rest[j].id != s[0].id {
          assert multiset(rest)[rest[j]] > 0;
          assert rest[j] in s[1..];
          var m :| 0 <= m < |s[1..]| && s[1..][m] == rest[j];
          assert s[m + 1] == rest[j];
        }
        AddUnique(rest, s[0]);
      }
    }
  }

  predicate AllTitlesTrimmed(s: seq<Todo>) {
    forall i :: 0 <= i < |s| ==> IsTrimmed(s[i].title)
  }

  /** Titles written by the store are trimmed; none of its operations untrims one. */
  lemma TitlesStayTrimmed(s: seq<Todo>, id: int, title: string, t: Todo)
    requires AllTitlesTrimmed(s)
    ensures IsTrimmed(t.title) ==> AllTitlesTrimmed([t] + s)
    ensures AllTitlesTrimmed(Toggled(s, id))
    ensures AllTitlesTrimmed(Renamed(s, id, Trim(title)))
    ensures AllTitlesTrimmed(WithoutId(s, id))
    ensures AllTitlesTrimmed(Keep(s, Pending))
  {
    if IsTrimmed(t.title) {
      forall i | 0 <= i < |[t] + s| ensures IsTrimmed(([t] + s)[i].title) {
        if i > 0 { assert ([t] + s)[i] == s[i - 1]; }
      }
    }
    KeepTrimmed(s, OtherThan(id));
    KeepTrimmed(s, Pending);
  }

  lemma KeepTrimmed(s: seq<Todo>, p: Todo -> bool)
    requires AllTitlesTrimmed(s)
    ensures AllTitlesTrimmed(Keep(s, p))
  {
    var r := Keep(s, p);
    KeepCounts(s, p);
    forall i | 0 <= i < |r| ensures IsTrimmed(r[i].title) {
      assert multiset(r)[r[i]] > 0;
      assert r[i] in s;
    }
  }
}
