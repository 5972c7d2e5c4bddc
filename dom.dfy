/** The reads a page object makes through a locator, over the texts of the
    elements the locator matches (in document order; None for a `null` text). */
module Dom {
  import opened Outcomes

  /** JavaScript `text || fallback`: a null or empty text gives the fallback. */
  function TextOr(t: Option<string>, fallback: string): (r: string)
    ensures t.Some? && t.value != "" ==> r == t.value
    ensures t.None? || t.value == "" ==> r == fallback
  {
    if t.Some? && t.value != "" then t.value else fallback
  }

  /** `locator.allTextContents()`: one string per matched element, "" for null. */
  function AllTextContents(cells: seq<Option<string>>): (r: seq<string>)
    ensures |r| == |cells|
    ensures forall i :: 0 <= i < |cells| ==> r[i] == cells[i].GetOr("")
  {
    if cells == [] then [] else [cells[0].GetOr("")] + AllTextContents(cells[1..])
  }

  /** `locator.nth(i).textContent()`: times out when fewer than i + 1 elements match. */
  function NthText(cells: seq<Option<string>>, i: nat): (r: Result<Option<string>>)
    ensures r.Ok? <==> i < |cells|
    ensures r.Ok? ==> r.value == cells[i]
    ensures r.Err? ==> r.failure == Timeout
  {
    if i < |cells| then Ok(cells[i]) else Err(Timeout)
  }

  /** `locator.last().textContent()`: times out when nothing matches. */
  function LastText(cells: seq<Option<string>>): (r: Result<Option<string>>)
    ensures r.Ok? <==> cells != []
    ensures r.Ok? ==> r.value == cells[|cells| - 1]
    ensures r.Err? ==> r.failure == Timeout
  {
    if cells == [] then Err(Timeout) else Ok(cells[|cells| - 1])
  }
}
