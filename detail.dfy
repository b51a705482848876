/**
 * `handleDetail`: an item page is the upstream page of the catalog item whose
 * id is the second path segment, proxied with that id so that it carries the
 * download banner.
 */
module Detail {
  import opened Builtins
  import opened Http
  import opened Catalog
  import Proxy

  /**
   * `items.find((i) => i.id === itemId)` for an id taken from the path; an
   * absent (undefined) id equals no item's id.
   */
  function LookupItem(items: seq<Item>, id: Option<string>): (r: Option<Item>)
    ensures r.Some? ==> id.Some? && r.value.id == id.value && r.value in items
    ensures r.None? <==> forall k :: 0 <= k < |items| ==> Some(items[k].id) != id
  {
    if id.None? then None else FindById(items, id.value)
  }

  /** The lookup yields the FIRST item carrying the id. */
  lemma LookupFirst(items: seq<Item>, id: string, k: nat)
    requires k < |items| && items[k].id == id
    requires forall j :: 0 <= j < k ==> items[j].id != id
    ensures LookupItem(items, Some(id)) == Some(items[k])
  {
    var r := FindById(items, id);
    var k' :| 0 <= k' < |items| && items[k'] == r.value && forall j :: 0 <= j < k' ==> items[j].id != id;
  }

  /** `handleDetail(request)`, given the catalog that `getItems` returned. */
  function HandleDetail(env: Env, req: Request, items: seq<Item>): (r: Result<Response>)
  {
    var id := Segment(req.pathname, '/', 2);
    match LookupItem(items, id)
    case None => Ok(NotFound(req))
    case Some(item) => Proxy.ProxyRequest(env, req, item.page, id)
  }

  /** The id of `/detail/<rest>` is the part of `rest` before its first slash. */
  lemma DetailId(rest: string)
    ensures Segment("/detail/" + rest, '/', 2) == Some(UpTo(rest, '/'))
  {
    assert "/" + "detail" + "/" + rest == "/detail/" + rest;
    SecondSegment("detail", rest);
  }

  /** `/detail/abc/x` names `abc`; `/detail/` names the empty id. */
  lemma DetailIdExamples()
    ensures Segment("/detail/abc/x", '/', 2) == Some("abc")
    ensures Segment("/detail/", '/', 2) == Some("")
  {
    DetailId("abc/x");
    assert "/detail/" + "abc/x" == "/detail/abc/x";
    assert UpTo("abc/x", '/') == "abc";
    DetailId("");
    assert "/detail/" + "" == "/detail/";
  }

  /**
   * An id no catalog item carries gives the local 404 page, whatever the
   * environment does: nothing is proxied.
   */
  lemma UnknownItemNotFound(env: Env, req: Request, items: seq<Item>)
    requires forall k :: 0 <= k < |items| ==> Some(items[k].id) != Segment(req.pathname, '/', 2)
    ensures HandleDetail(env, req, items) == Ok(NotFound(req))
  {
  }

  /**
   * A known id proxies the page of the first item carrying it, passing the id
   * on (so a non-empty id gets the banner).
   */
  lemma KnownItemProxied(env: Env, req: Request, items: seq<Item>, k: nat)
    requires k < |items| && Segment(req.pathname, '/', 2) == Some(items[k].id)
    requires forall j :: 0 <= j < k ==> items[j].id != items[k].id
    ensures HandleDetail(env, req, items) == Proxy.ProxyRequest(env, req, items[k].page, Some(items[k].id))
  {
    LookupFirst(items, items[k].id, k);
  }
}
