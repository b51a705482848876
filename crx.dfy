/**
 * `handleCrx`: the package of the catalog item named by the second path
 * segment, fetched from the item's file URL and returned as an attachment.
 */
module Crx {
  import opened Builtins
  import opened Http
  import opened Catalog
  import Detail

  /** The `Content-Disposition` value naming the download `<id>.crx`. */
  function Disposition(id: string): string {
    "attachment; filename=\"" + id + ".crx\""
  }

  /**
   * `new Headers(upstream)` then `set("Content-Disposition", ...)`: every
   * upstream header is kept except a disposition, which is replaced.
   */
  function DownloadHeaders(upstream: Headers, id: string): (h: Headers)
    ensures h.Keys == upstream.Keys + {"content-disposition"}
    ensures h["content-disposition"] == Disposition(id)
    ensures forall name :: name in upstream && name != "content-disposition" ==> h[name] == upstream[name]
  {
    upstream["content-disposition" := Disposition(id)]
  }

  /** The download filename can be read back from the disposition: distinct ids, distinct files. */
  lemma DispositionInjective(a: string, b: string)
    requires Disposition(a) == Disposition(b)
    ensures a == b
  {
    var n := |"attachment; filename=\""|;
    assert |a| == |b|;
    assert a == Disposition(a)[n..n + |a|];
    assert b == Disposition(b)[n..n + |b|];
  }

  /** `handleCrx(request)`, given the catalog that `getItems` returned. */
  function HandleCrx(env: Env, req: Request, items: seq<Item>): (r: Result<Response>)
  {
    match Detail.LookupItem(items, Segment(req.pathname, '/', 2))
    case None => Ok(NotFound(req))
    case Some(item) =>
      match env.fetch(Fetch(item.file, map[], Follow))
      case None => Err(NetworkError)
      case Some(up) =>
        if !StatusInRange(up.status) then Err(StatusOutOfRange)
        else Ok(Response(up.status, up.statusText, DownloadHeaders(up.headers, item.id), Stream(up.body)))
  }

  /** An unknown id gives the local 404 page, whatever the environment does: nothing is fetched. */
  lemma UnknownPackageNotFound(env: Env, req: Request, items: seq<Item>)
    requires forall k :: 0 <= k < |items| ==> Some(items[k].id) != Segment(req.pathname, '/', 2)
    ensures HandleCrx(env, req, items) == Ok(NotFound(req))
  {
  }

  /**
   * A known id fetches the first matching item's file (following redirects)
   * and returns its status, status text and body as they are, with the
   * upstream headers and the attachment filename of that id; a status the
   * Response constructor refuses throws.
   */
  lemma PackagePassedThrough(env: Env, req: Request, items: seq<Item>, k: nat)
    requires k < |items| && Segment(req.pathname, '/', 2) == Some(items[k].id)
    requires forall j :: 0 <= j < k ==> items[j].id != items[k].id
    ensures var r := HandleCrx(env, req, items);
            match env.fetch(Fetch(items[k].file, map[], Follow))
            case None => r == Err(NetworkError)
            case Some(up) =>
              (!StatusInRange(up.status) ==> r == Err(StatusOutOfRange)) &&
              (StatusInRange(up.status) ==>
                 r.Ok? && r.value.status == up.status && r.value.statusText == up.statusText &&
                 r.value.body == Stream(up.body) &&
                 HeaderGet(r.value.headers, "content-disposition") == Some(Disposition(items[k].id)) &&
                 forall name :: name in up.headers && name != "content-disposition" ==>
                   HeaderGet(r.value.headers, name) == Some(up.headers[name]))
  {
    Detail.LookupFirst(items, items[k].id, k);
  }
}
