/**
 * The todo record shared by the mock API, the Express backend and the client, and the
 * JavaScript array operations they use on lists of todos: filter, findIndex, map and
 * the toggle of one entry.
 */
module Todos {

  /** A todo as the mock API and the Express backend store it: `createdAt` is the
      millisecond timestamp taken at creation. */
  datatype Todo = Todo(id: string, title: string, completed: bool, createdAt: int)

  predicate IsActive(t: Todo) { !t.completed }

  predicate IsDone(t: Todo) { t.completed }

  /** Some entry carries `id` (findIndex would not return -1). */
  predicate HasId(s: seq<Todo>, id: string)
  {
    exists i :: 0 <= i < |s| && s[i].id == id
  }

  /** No two entries share an id. */
  predicate UniqueIds(s: seq<Todo>)
  {
    forall i, j :: 0 <= i < j < |s| ==> s[i].id != s[j].id
  }

  /** `a` is `b` with some elements dropped and the rest kept in their order. */
  ghost predicate SubseqOf<T>(a: seq<T>, b: seq<T>)
    decreases |b|
  {
    a == [] || (b != [] && ((a[0] == b[0] && SubseqOf(a[1..], b[1..])) || SubseqOf(a, b[1..])))
  }

  lemma {:induction false} SubseqOfSelf<T>(s: seq<T>)
    ensures SubseqOf(s, s)
  {
    if s != [] {
      SubseqOfSelf(s[1..]);
    }
  }

  /** Array.prototype.filter: keeps, in order, exactly the elements that satisfy `p`
      (FilterCounts adds: each as many times as it occurs). */
  function Filter(s: seq<Todo>, p: Todo -> bool): (r: seq<Todo>)
    ensures forall x :: x in r <==> x in s && p(x)
    ensures SubseqOf(r, s)
    ensures |r| <= |s|
    ensures |r| == |s| <==> forall i :: 0 <= i < |s| ==> p(s[i])
    ensures |r| == |s| ==> r == s
  {
    if s == [] then []
    else
      var rest := Filter(s[1..], p);
      assert forall x :: x in s <==> x == s[0] || x in s[1..];
      if p(s[0]) then
        assert ([s[0]] + rest)[1..] == rest;
        [s[0]] + rest
      else
        assert !p(s[0]);
        rest
  }

  /** Filtering drops no copy of a kept element: every element satisfying `p` occurs in
      the result exactly as often as in the list, every other element not at all. */
  lemma {:induction false} FilterCounts(s: seq<Todo>, p: Todo -> bool)
    ensures forall x :: multiset(Filter(s, p))[x] == if p(x) then multiset(s)[x] else 0
  {
    if s != [] {
      var rest := s[1..];
      FilterCounts(rest, p);
      assert s == [s[0]] + rest;
      if p(s[0]) {
        assert Filter(s, p) == [s[0]] + Filter(rest, p);
      } else {
        assert Filter(s, p) == Filter(rest, p);
      }
    }
  }

  /** Keeping a subset of a list with unique ids keeps the ids unique. */
  lemma {:induction false} FilterKeepsUnique(s: seq<Todo>, p: Todo -> bool)
    requires UniqueIds(s)
    ensures UniqueIds(Filter(s, p))
  {
    if s != [] {
      FilterKeepsUnique(s[1..], p);
      var rest := Filter(s[1..], p);
      if p(s[0]) {
        forall j | 0 <= j < |rest|
          ensures s[0].id != rest[j].id
        {
          assert rest[j] in s[1..];
          var k :| 0 <= k < |s[1..]| && s[1..][k] == rest[j];
          assert s[k + 1] == rest[j];
        }
      }
    }
  }

  /** The list filtered by `t.id !== id`: no entry with that id is left, every other entry
      is kept in order and as often as before, and the list got shorter exactly when some
      entry had the id. */
  function WithoutId(s: seq<Todo>, id: string): (r: seq<Todo>)
    ensures forall t :: t in r <==> t in s && t.id != id
    ensures forall t :: multiset(r)[t] == if t.id != id then multiset(s)[t] else 0
    ensures !HasId(r, id)
    ensures SubseqOf(r, s)
    ensures |r| < |s| <==> HasId(s, id)
    ensures !HasId(s, id) ==> r == s
    ensures UniqueIds(s) ==> UniqueIds(r)
  {
    var keep := (t: Todo) => t.id != id;
    var r := Filter(s, keep);
    FilterCounts(s, keep);
    assert UniqueIds(s) ==> UniqueIds(r) by {
      if UniqueIds(s) {
        FilterKeepsUnique(s, keep);
      }
    }
    assert forall i :: 0 <= i < |r| ==> r[i] in r;
    r
  }

  /** The same todo with `completed` negated; toggling twice gives the todo back. */
  function Toggled(t: Todo): (r: Todo)
    ensures r.id == t.id && r.title == t.title && r.createdAt == t.createdAt
    ensures r.completed != t.completed
    ensures r.(completed := !r.completed) == t
  {
    t.(completed := !t.completed)
  }

  /** Array.prototype.findIndex on `t.id === id`: the first index carrying `id`, or -1. */
  function IndexOf(s: seq<Todo>, id: string): (r: int)
    ensures -1 <= r < |s|
    ensures r == -1 <==> !HasId(s, id)
    ensures 0 <= r ==> s[r].id == id && forall j :: 0 <= j < r ==> s[j].id != id
  {
    if s == [] then -1
    else if s[0].id == id then 0
    else
      var k := IndexOf(s[1..], id);
      if k == -1 then
        assert forall i :: 1 <= i < |s| ==> s[i] == s[1..][i - 1];
        -1
      else
        k + 1
  }

  /** The list after toggling the first entry carrying `id`, the list itself when none does. */
  function ToggleFirst(s: seq<Todo>, id: string): (r: seq<Todo>)
    ensures |r| == |s|
    ensures forall j :: 0 <= j < |s| ==> r[j].id == s[j].id
    ensures forall j :: 0 <= j < |s| && j != IndexOf(s, id) ==> r[j] == s[j]
    ensures HasId(s, id) ==> r[IndexOf(s, id)] == Toggled(s[IndexOf(s, id)])
  {
    var i := IndexOf(s, id);
    if i == -1 then s else s[i := Toggled(s[i])]
  }

  /** Toggling keeps every id where it was, so the first entry carrying `id` is the same
      entry before and after. */
  lemma ToggleFirstKeepsIndex(s: seq<Todo>, id: string)
    ensures IndexOf(ToggleFirst(s, id), id) == IndexOf(s, id)
    ensures UniqueIds(s) ==> UniqueIds(ToggleFirst(s, id))
  {
    var r := ToggleFirst(s, id);
    var i := IndexOf(s, id);
    if i != -1 {
      assert r[i].id == id;
    } else {
      assert forall j :: 0 <= j < |r| ==> r[j].id == s[j].id;
    }
  }

  /** Toggling the same id twice restores the list, whether or not the id is present. */
  lemma ToggleFirstTwice(s: seq<Todo>, id: string)
    ensures ToggleFirst(ToggleFirst(s, id), id) == s
  {
    ToggleFirstKeepsIndex(s, id);
  }

  /** `s.map(t => t.id === id ? u : t)`: every entry carrying `id` is replaced by `u`,
      every other entry is kept where it is. */
  function ReplaceById(s: seq<Todo>, id: string, u: Todo): (r: seq<Todo>)
    ensures |r| == |s|
    ensures forall j :: 0 <= j < |s| && s[j].id == id ==> r[j] == u
    ensures forall j :: 0 <= j < |s| && s[j].id != id ==> r[j] == s[j]
  {
    if s == [] then []
    else
      var rest := ReplaceById(s[1..], id, u);
      [if s[0].id == id then u else s[0]] + rest
  }

  /** With unique ids, replacing by id with the toggled entry (what the client does with
      the API's answer) gives exactly the list the API holds after its toggle. */
  lemma ReplaceByIdIsToggleFirst(s: seq<Todo>, id: string)
    requires UniqueIds(s) && HasId(s, id)
    ensures ReplaceById(s, id, Toggled(s[IndexOf(s, id)])) == ToggleFirst(s, id)
  {
    var i := IndexOf(s, id);
    var r := ReplaceById(s, id, Toggled(s[i]));
    var t := ToggleFirst(s, id);
    forall j | 0 <= j < |s|
      ensures r[j] == t[j]
    {
      if j < i {
        assert s[j].id != id;
      } else if j > i {
        assert s[i].id != s[j].id;
      }
    }
  }

  /** A todo with a fresh id in front of a list with unique ids keeps the ids unique. */
  lemma PrependKeepsUnique(t: Todo, s: seq<Todo>)
    requires UniqueIds(s) && !HasId(s, t.id)
    ensures UniqueIds([t] + s)
  {
    var r := [t] + s;
    forall i, j | 0 <= i < j < |r|
      ensures r[i].id != r[j].id
    {
      assert r[j] == s[j - 1];
      if i > 0 {
        assert r[i] == s[i - 1];
      }
    }
  }

  /** Splitting a list by `completed`: the active and the done entries together are the
      whole list (as a multiset, hence in number), and no entry is in both. */
  lemma SplitByCompletion(s: seq<Todo>)
    ensures multiset(Filter(s, IsActive)) + multiset(Filter(s, IsDone)) == multiset(s)
    ensures |Filter(s, IsActive)| + |Filter(s, IsDone)| == |s|
    ensures forall t :: !(t in Filter(s, IsActive) && t in Filter(s, IsDone))
  {
    SplitMultiset(s);
    assert |multiset(Filter(s, IsActive))| == |Filter(s, IsActive)|;
    assert |multiset(Filter(s, IsDone))| == |Filter(s, IsDone)|;
  }

  lemma SplitMultiset(s: seq<Todo>)
    ensures multiset(Filter(s, IsActive)) + multiset(Filter(s, IsDone)) == multiset(s)
  {
    var a, d := Filter(s, IsActive), Filter(s, IsDone);
    FilterCounts(s, IsActive);
    FilterCounts(s, IsDone);
    forall t
      ensures (multiset(a) + multiset(d))[t] == multiset(s)[t]
    {
    }
  }
}
