/**
 * The AWS Lambda handler behind API Gateway (infra/lambda/index.js): a dispatch on the
 * request's method and path to a DynamoDB scan, put, get-then-update or delete. The table
 * is a map from id to item; the SDK, its failures, the log lines and the contents of the
 * CORS headers are left out.
 */
module Lambda {
  import opened Wrappers

  /** A stored task. Unlike the other back ends it calls the title `text`, and `createdAt`
      is an ISO-8601 string. */
  datatype Item = Item(id: string, text: string, completed: bool, createdAt: string)

  /** The request body as the handler reads it: absent or empty (parsed as `{}`);
      `Malformed`, either not parseable or parsed to `null`, so that JSON.parse or the read
      of `body.text` throws; or a value whose `text` and `completed` fields may be missing
      (a number, string, boolean or array has neither). */
  datatype Payload =
    | NoBody
    | Malformed
    | Json(text: Option<string>, completed: Option<bool>)

  datatype Event = Event(httpMethod: string, path: string, body: Payload)

  /** The CORS headers alone, or with `Content-Type: application/json` added. */
  datatype Headers = Cors | JsonCors

  datatype Body =
    | Empty
    | Items(items: seq<Item>)
    | One(item: Item)
    | Message(message: string)
    | Deleted(id: string)
    | InvalidRequest(path: string, httpMethod: string)
    | InternalError

  datatype Response = Response(statusCode: int, headers: Headers, body: Body)

  /** Where the handler sends a request. */
  datatype Route = Preflight | ListAll | Create | Toggle(id: string) | Delete(id: string) | Unrouted

  const Collection: string := "/todos"
  const ItemPrefix: string := "/todos/"
  const ToggleSuffix: string := "/toggle"

  /** What the regular expression `[^\/]+` captures: one or more characters, none a slash. */
  predicate IsSegment(s: string)
  {
    |s| > 0 && '/' !in s
  }

  function TogglePath(id: string): string
  {
    ItemPrefix + id + ToggleSuffix
  }

  function ItemPath(id: string): string
  {
    ItemPrefix + id
  }

  /** `path.match(/^\/todos\/([^\/]+)\/toggle$/)`: the captured id, if the path matches. */
  function MatchToggle(path: string): (r: Option<string>)
    ensures r.Some? ==> IsSegment(r.value) && path == TogglePath(r.value)
  {
    var lo, hi := |ItemPrefix|, |path| - |ToggleSuffix|;
    if lo <= hi && path[..lo] == ItemPrefix && path[hi..] == ToggleSuffix && IsSegment(path[lo..hi]) then
      assert path == path[..lo] + path[lo..hi] + path[hi..];
      Some(path[lo..hi])
    else
      None
  }

  /** `path.match(/^\/todos\/([^\/]+)$/)`: the captured id, if the path matches. */
  function MatchItem(path: string): (r: Option<string>)
    ensures r.Some? ==> IsSegment(r.value) && path == ItemPath(r.value)
  {
    var lo := |ItemPrefix|;
    if lo <= |path| && path[..lo] == ItemPrefix && IsSegment(path[lo..]) then
      assert path == path[..lo] + path[lo..];
      Some(path[lo..])
    else
      None
  }

  /** Every path of the toggle form is matched, and gives back its id. */
  lemma MatchToggleComplete(id: string)
    requires IsSegment(id)
    ensures MatchToggle(TogglePath(id)) == Some(id)
  {
    var p := TogglePath(id);
    assert p[..|ItemPrefix|] == ItemPrefix;
    assert p[|ItemPrefix|..|p| - |ToggleSuffix|] == id;
    assert p[|p| - |ToggleSuffix|..] == ToggleSuffix;
  }

  /** Every path of the item form is matched, and gives back its id. */
  lemma MatchItemComplete(id: string)
    requires IsSegment(id)
    ensures MatchItem(ItemPath(id)) == Some(id)
  {
    var p := ItemPath(id);
    assert p[..|ItemPrefix|] == ItemPrefix;
    assert p[|ItemPrefix|..] == id;
  }

  /** The routing of `handler`: OPTIONS first, whatever the path; then GET and POST on the
      collection; then PUT on a toggle path and DELETE on an item path; nothing else. */
  function RouteOf(httpMethod: string, path: string): (r: Route)
    ensures r == Preflight <==> httpMethod == "OPTIONS"
    ensures r == ListAll <==> httpMethod == "GET" && path == Collection
    ensures r == Create <==> httpMethod == "POST" && path == Collection
    ensures r.Toggle? ==> httpMethod == "PUT" && IsSegment(r.id) && path == TogglePath(r.id)
    ensures r.Delete? ==> httpMethod == "DELETE" && IsSegment(r.id) && path == ItemPath(r.id)
  {
    if httpMethod == "OPTIONS" then Preflight
    else if path == Collection && httpMethod == "GET" then ListAll
    else if path == Collection && httpMethod == "POST" then Create
    else if MatchToggle(path).Some? && httpMethod == "PUT" then Toggle(MatchToggle(path).value)
    else if MatchItem(path).Some? && httpMethod == "DELETE" then Delete(MatchItem(path).value)
    else Unrouted
  }

  /** PUT on a toggle path and DELETE on an item path always reach their handler with the
      id from the path. */
  lemma RouteOfItemPaths(id: string)
    requires IsSegment(id)
    ensures RouteOf("PUT", TogglePath(id)) == Toggle(id)
    ensures RouteOf("DELETE", ItemPath(id)) == Delete(id)
  {
    MatchToggleComplete(id);
    MatchItemComplete(id);
    assert |TogglePath(id)| > |Collection|;
    assert |ItemPath(id)| > |Collection|;
  }

  /** The collection itself is routed for GET and POST only: in particular there is no
      bulk DELETE /todos here, unlike the Express backend; it is unrouted (400). */
  lemma CollectionOtherMethodsUnrouted(httpMethod: string)
    requires httpMethod !in {"OPTIONS", "GET", "POST"}
    ensures RouteOf(httpMethod, Collection) == Unrouted
  {
    assert |Collection| < |ItemPrefix|;
  }

  /** An item path never matches the toggle pattern: a PUT on `/todos/{id}` is unrouted
      (400), and so is every other method but OPTIONS and DELETE. */
  lemma ItemPathIsNoTogglePath(httpMethod: string, id: string)
    requires IsSegment(id) && httpMethod != "OPTIONS" && httpMethod != "DELETE"
    ensures MatchToggle(ItemPath(id)).None?
    ensures RouteOf(httpMethod, ItemPath(id)) == Unrouted
  {
    var p := ItemPath(id);
    assert forall i :: |ItemPrefix| <= i < |p| ==> p[i] == id[i - |ItemPrefix|];
    assert forall i :: |ItemPrefix| <= i < |p| ==> p[i] != '/';
    var hi := |p| - |ToggleSuffix|;
    assert |ItemPrefix| <= hi ==> p[hi..][0] != ToggleSuffix[0];
    assert |p| > |Collection|;
  }

  /** Two ways of cutting a string at its first slash agree: a slash-free head followed by
      a part that starts with a slash determines both. */
  lemma SplitAtSlash(x: string, u: string, a: string, v: string)
    requires '/' !in x && '/' !in a
    requires |u| > 0 && u[0] == '/' && |v| > 0 && v[0] == '/'
    requires x + u == a + v
    ensures x == a && u == v
  {
    var s := x + u;
    assert forall i :: 0 <= i < |x| ==> s[i] == x[i];
    assert forall i :: 0 <= i < |a| ==> s[i] == a[i];
    assert s[|x|] == '/' && s[|a|] == '/';
    assert |x| == |a|;
    assert x == s[..|x|] && a == s[..|a|];
    assert u == s[|x|..] && v == s[|a|..];
  }

  /** A path with two segments below the collection is routed only when it is a PUT on
      a toggle path: `/todos/a/b` is unrouted (400) for every other method but OPTIONS. */
  lemma NestedPathUnrouted(httpMethod: string, a: string, b: string)
    requires IsSegment(a) && IsSegment(b)
    requires httpMethod != "OPTIONS" && (httpMethod != "PUT" || b != "toggle")
    ensures RouteOf(httpMethod, ItemPrefix + a + "/" + b) == Unrouted
  {
    var p := ItemPrefix + a + "/" + b;
    assert p[|ItemPrefix| + |a|] == '/';
    assert MatchToggle(p).Some? ==> b == "toggle" by {
      if MatchToggle(p).Some? {
        var x := MatchToggle(p).value;
        assert p[|ItemPrefix|..] == x + ToggleSuffix == a + ("/" + b);
        SplitAtSlash(x, ToggleSuffix, a, "/" + b);
        assert ToggleSuffix[1..] == b;
      }
    }
    assert |p| > |Collection|;
  }

  /** A POST body the handler rejects with 400: no body, or no `text`, or an empty one.
      Whitespace is not trimmed, so a blank `text` is accepted. */
  predicate MissingText(b: Payload)
  {
    b.NoBody? || (b.Json? && (b.text.None? || b.text.value == ""))
  }

  /** The item a POST with an accepted body stores: `completed` is `body.completed || false`. */
  function NewItem(b: Payload, newId: string, now: string): (item: Item)
    requires b.Json? && b.text.Some?
    ensures item.id == newId && item.text == b.text.value && item.createdAt == now
    ensures item.completed <==> b.completed == Some(true)
  {
    Item(newId, b.text.value, b.completed.GetOr(false), now)
  }

  /** The DynamoDB table, keyed by id. */
  class Table {
    var items: map<string, Item>

    /** A new, empty table. */
    constructor ()
      ensures Valid() && items == map[]
    {
      items := map[];
    }

    /** Every item is stored under its own id. */
    ghost predicate Valid()
      reads this
    {
      forall k :: k in items ==> items[k].id == k
    }

    /** A scan: every stored item exactly once, in an order the table chooses. */
    method Scan() returns (r: seq<Item>)
      requires Valid()
      ensures |r| == |items|
      ensures forall i :: 0 <= i < |r| ==> r[i].id in items && items[r[i].id] == r[i]
      ensures forall k :: k in items ==> items[k] in r
    {
      var rest := items.Keys;
      r := [];
      while rest != {}
        invariant rest <= items.Keys
        invariant |r| + |rest| == |items|
        invariant forall i :: 0 <= i < |r| ==> r[i].id in items.Keys - rest && items[r[i].id] == r[i]
        invariant forall k :: k in items.Keys - rest ==> items[k] in r
        decreases |rest|
      {
        var k :| k in rest;
        r := r + [items[k]];
        rest := rest - {k};
      }
    }

    /** `handler`: answers one request and applies its effect on the table. `newId` and
        `now` stand for `Date.now().toString()` and `new Date().toISOString()`. */
    method Handle(event: Event, newId: string, now: string) returns (resp: Response)
      requires Valid()
      modifies this
      ensures Valid()
      ensures RouteOf(event.httpMethod, event.path) == Preflight ==>
                resp == Response(200, Cors, Empty) && items == old(items)
      ensures RouteOf(event.httpMethod, event.path) == ListAll ==>
                && items == old(items)
                && resp.statusCode == 200 && resp.headers == JsonCors && resp.body.Items?
                && |resp.body.items| == |items|
                && (forall k :: k in items ==> items[k] in resp.body.items)
                && (forall x :: x in resp.body.items ==> x.id in items && items[x.id] == x)
      ensures RouteOf(event.httpMethod, event.path) == Create ==>
                if event.body.Malformed? then
                  resp == Response(500, Cors, InternalError) && items == old(items)
                else if MissingText(event.body) then
                  resp == Response(400, Cors, Message("Missing text")) && items == old(items)
                else
                  var item := NewItem(event.body, newId, now);
                  resp == Response(201, JsonCors, One(item)) && items == old(items)[newId := item]
      ensures RouteOf(event.httpMethod, event.path).Toggle? ==>
                var id := RouteOf(event.httpMethod, event.path).id;
                if id !in old(items) then
                  resp == Response(404, Cors, Message("Task not found")) && items == old(items)
                else
                  var updated := old(items)[id].(completed := !old(items)[id].completed);
                  resp == Response(200, JsonCors, One(updated)) && items == old(items)[id := updated]
      ensures RouteOf(event.httpMethod, event.path).Delete? ==>
                var id := RouteOf(event.httpMethod, event.path).id;
                resp == Response(200, JsonCors, Deleted(id)) && items == old(items) - {id}
      ensures RouteOf(event.httpMethod, event.path) == Unrouted ==>
                resp == Response(400, Cors, InvalidRequest(event.path, event.httpMethod))
                && items == old(items)
    {
      var httpMethod, path := event.httpMethod, event.path;
      if httpMethod == "OPTIONS" {
        return Response(200, Cors, Empty);
      }
      if path == Collection {
        if httpMethod == "GET" {
          var all := Scan();
          return Response(200, JsonCors, Items(all));
        }
        if httpMethod == "POST" {
          if event.body.Malformed? {
            return Response(500, Cors, InternalError);
          }
          if MissingText(event.body) {
            return Response(400, Cors, Message("Missing text"));
          }
          var item := NewItem(event.body, newId, now);
          items := items[newId := item];
          return Response(201, JsonCors, One(item));
        }
      }
      var toggleMatch := MatchToggle(path);
      if toggleMatch.Some? && httpMethod == "PUT" {
        var taskId := toggleMatch.value;
        if taskId !in items {
          return Response(404, Cors, Message("Task not found"));
        }
        var newCompleted := !items[taskId].completed;
        items := items[taskId := items[taskId].(completed := newCompleted)];
        return Response(200, JsonCors, One(items[taskId]));
      }
      var deleteMatch := MatchItem(path);
      if deleteMatch.Some? && httpMethod == "DELETE" {
        var taskId := deleteMatch.value;
        items := items - {taskId};
        return Response(200, JsonCors, Deleted(taskId));
      }
      return Response(400, Cors, InvalidRequest(path, httpMethod));
    }
  }
}
