/**
 * The limit/offset handling that `listTeams` (src/controllers/team.controller.ts)
 * and `listUsers` (src/controllers/auth.controller.ts) share: both parse the
 * query strings with `parseInt(…) || default`, reject a limit outside
 * `[0, max]`, count the matching documents, and move an out-of-range offset
 * back into the collection.
 */
module Paging {
  import opened Common

  /**
   * A query-string parameter as `parseInt` sees it: absent, an integer
   * literal, or text that does not start with a number (`parseInt` gives NaN).
   */
  datatype QueryParam = Absent | Numeric(value: int) | NonNumeric

  /** `parseInt(p) || d`: NaN and 0 are both falsy and fall back to `d`. */
  function IntOr(p: QueryParam, d: int): (r: int)
    ensures p.Numeric? && p.value != 0 ==> r == p.value
    ensures !(p.Numeric? && p.value != 0) ==> r == d
  {
    match p
    case Numeric(v) => if v != 0 then v else d
    case _ => d
  }

  /** The page a list handler answers with. */
  datatype Window = Window(limit: int, offset: int, total: nat, hasMore: bool)

  /**
   * `offset > total || offset < 0 ? (limit > total ? 0 : total - limit) : offset`.
   * With a limit in range the result lies in `[0, total]`.
   */
  function ClampOffset(offset: int, limit: int, total: nat): (r: int)
    requires limit >= 0
    ensures 0 <= r <= total
    ensures 0 <= offset <= total ==> r == offset
    ensures !(0 <= offset <= total) ==> r == (if limit > total then 0 else total - limit)
  {
    if offset > total || offset < 0 then (if limit > total then 0 else total - limit) else offset
  }

  /**
   * The window for the query parameters, the handler's maximum limit (1000
   * for teams, 3000 for users) and the number of matching documents. A
   * limit outside `[0, max]` is a 400 before anything is counted.
   */
  function ListWindow(limit: QueryParam, offset: QueryParam, max: nat, total: nat): (r: Result<Window>)
    ensures r.Err? <==> !(0 <= IntOr(limit, 10) <= max)
    ensures r.Err? ==> r.error == BadRequest
    ensures r.Ok? ==> r.value.limit == IntOr(limit, 10) && r.value.total == total
    ensures r.Ok? ==> 0 <= r.value.offset <= total
    ensures r.Ok? ==> (r.value.hasMore <==> r.value.offset + r.value.limit < total)
  {
    var l := IntOr(limit, 10);
    var o := IntOr(offset, 0);
    if l > max || l < 0 then Err(BadRequest)
    else
      var o' := ClampOffset(o, l, total);
      Ok(Window(l, o', total, o' + l < total))
  }

  /** `listTeams`: limits up to 1000. */
  function ListTeamsWindow(limit: QueryParam, offset: QueryParam, total: nat): (r: Result<Window>)
    ensures r.Err? <==> !(0 <= IntOr(limit, 10) <= 1000)
    ensures r.Ok? ==> 0 <= r.value.offset <= total
  {
    ListWindow(limit, offset, 1000, total)
  }

  /** `listUsers`: limits up to 3000. */
  function ListUsersWindow(limit: QueryParam, offset: QueryParam, total: nat): (r: Result<Window>)
    ensures r.Err? <==> !(0 <= IntOr(limit, 10) <= 3000)
    ensures r.Ok? ==> 0 <= r.value.offset <= total
  {
    ListWindow(limit, offset, 3000, total)
  }

  /**
   * An absent, zero or non-numeric limit means 10; an offset already inside
   * the collection is kept; a last page has no more after it.
   */
  lemma DefaultsAndLastPage(offset: int, total: nat)
    requires 0 <= offset <= total
    ensures ListWindow(Absent, Numeric(offset), 1000, total).Ok?
    ensures ListWindow(Numeric(0), Numeric(offset), 1000, total).value.limit == 10
    ensures ListWindow(NonNumeric, Numeric(offset), 1000, total).value.offset == offset
    ensures offset + 10 >= total ==> !ListWindow(Absent, Numeric(offset), 1000, total).value.hasMore
  {
  }

  /**
   * An offset past the end moves back to the last full page, so the page
   * still ends at the last document and reports no more.
   */
  lemma PastEndShowsLastPage(l: int, offset: int, max: nat, total: nat)
    requires 0 < l <= max && offset > total
    ensures ListWindow(Numeric(l), Numeric(offset), max, total).Ok?
    ensures var w := ListWindow(Numeric(l), Numeric(offset), max, total).value;
      !w.hasMore && w.offset + w.limit >= total
      && (l <= total ==> w.offset + w.limit == total)
  {
  }
}
