/**
 * Page navigation of the PDF viewer: the form's `page` text field, the
 * current page, the page count once the document has loaded, and the
 * rotation. The transitions are the jump-to-page form, the previous and
 * next buttons with their `disabled` guards, the rotate button and the
 * document's load callback.
 */
module PdfView {
  import opened Common
  import opened JsNumbers

  /** `totalPages` inside a comparison: `undefined` converts to NaN. */
  function TotalAsNumber(totalPages: Option<nat>): JsNum {
    if totalPages.None? then NaN else Finite(totalPages.value as real)
  }

  /** `customPageValidator`: `Number(input) > 0 && Number(input) <= totalPages!`. */
  predicate PageAccepted(input: string, totalPages: Option<nat>) {
    Less(Finite(0.0), ToNumber(input)) && LessOrEqual(ToNumber(input), TotalAsNumber(totalPages))
  }

  /** The previous button's `disabled`. */
  predicate PrevDisabled(currentPage: real) {
    currentPage <= 1.0
  }

  /**
   * The next button's `disabled`: `currentPage === totalPages || currentPage === undefined`.
   * The current page is always a number, so only the first test can hold.
   */
  predicate NextDisabled(currentPage: real, totalPages: Option<nat>) {
    totalPages.Some? && currentPage == totalPages.value as real
  }

  /** The previous button's state updater. */
  function PrevPage(prevPage: real): real {
    if prevPage <= 1.0 then prevPage else prevPage - 1.0
  }

  /** The next button's state updater. */
  function NextPage(prevPage: real, totalPages: Option<nat>): real {
    if totalPages.Some? && prevPage == totalPages.value as real then prevPage else prevPage + 1.0
  }

  /** A whole page between 1 and the known page count. */
  predicate InRange(currentPage: real, totalPages: Option<nat>) {
    totalPages.Some? && IsWhole(currentPage) && 1.0 <= currentPage <= totalPages.value as real
  }

  /** The current page after `n` clicks on the next button; a click on the disabled button does nothing. */
  function NextClicks(page: real, totalPages: Option<nat>, n: nat): real
    decreases n
  {
    if n == 0 then page
    else NextClicks(if NextDisabled(page, totalPages) then page else NextPage(page, totalPages), totalPages, n - 1)
  }

  /** A whole page in (0, totalPages] is in range. */
  lemma WholePageInRange(page: real, total: nat)
    requires IsWhole(page) && 0.0 < page <= total as real
    ensures InRange(page, Some(total))
  {
    assert page.Floor >= 1;
  }

  /** A jump is accepted exactly when the page count is known and the input is a number in (0, totalPages]. */
  lemma PageAcceptedIff(input: string, totalPages: Option<nat>)
    ensures PageAccepted(input, totalPages) <==>
      && totalPages.Some?
      && ToNumber(input).Finite?
      && 0.0 < ToNumber(input).value <= totalPages.value as real
  {
  }

  /** The button guards and the updaters' clamps test the same conditions: an enabled click always moves by one. */
  lemma ClampsMatchGuards(page: real, totalPages: Option<nat>)
    ensures !PrevDisabled(page) ==> PrevPage(page) == page - 1.0
    ensures !NextDisabled(page, totalPages) ==> NextPage(page, totalPages) == page + 1.0
  {
  }

  /** Previous keeps a whole page in range and never goes below 1. */
  lemma PrevKeepsRange(page: real, totalPages: Option<nat>)
    requires InRange(page, totalPages)
    ensures InRange(PrevPage(page), totalPages) && PrevPage(page) >= 1.0
  {
    if page > 1.0 {
      assert page.Floor >= 2;
      assert (page - 1.0).Floor == page.Floor - 1;
    }
  }

  /** Next, when enabled, keeps a whole page in range: it never passes the page count. */
  lemma NextKeepsRange(page: real, totalPages: Option<nat>)
    requires InRange(page, totalPages) && !NextDisabled(page, totalPages)
    ensures InRange(NextPage(page, totalPages), totalPages)
  {
    assert page.Floor < totalPages.value;
    assert (page + 1.0).Floor == page.Floor + 1;
  }

  /** However often it is clicked, next stops at the page count once a whole page is in range. */
  lemma {:induction false} NextClicksStayInRange(page: real, totalPages: Option<nat>, n: nat)
    requires InRange(page, totalPages)
    ensures InRange(NextClicks(page, totalPages, n), totalPages)
    decreases n
  {
    if n > 0 {
      var step := if NextDisabled(page, totalPages) then page else NextPage(page, totalPages);
      if !NextDisabled(page, totalPages) {
        NextKeepsRange(page, totalPages);
      }
      NextClicksStayInRange(step, totalPages, n - 1);
    }
  }

  /** Before the document has loaded, next is never disabled and every click adds one: it has no bound. */
  lemma {:induction false} NextUnboundedWhileLoading(page: real, n: nat)
    ensures NextClicks(page, None, n) == page + n as real
    decreases n
  {
    if n > 0 {
      NextUnboundedWhileLoading(page + 1.0, n - 1);
    }
  }

  /** A page that is not whole never equals the page count, so next never disables and n clicks add n. */
  lemma {:induction false} NextClicksFromFraction(page: real, totalPages: Option<nat>, n: nat)
    requires !IsWhole(page)
    ensures NextClicks(page, totalPages, n) == page + n as real
    decreases n
  {
    if n > 0 {
      assert !NextDisabled(page, totalPages);
      assert (page + 1.0).Floor == page.Floor + 1;
      NextClicksFromFraction(page + 1.0, totalPages, n - 1);
    }
  }

  /** Any text that reads as a number in (0, totalPages] is accepted. */
  lemma AcceptedOfValue(input: string, page: real, total: nat)
    requires ToNumber(input) == Finite(page) && 0.0 < page <= total as real
    ensures PageAccepted(input, Some(total))
  {
  }

  /**
   * The validator does not ask for a whole number: `w.f` with a value in
   * (0, totalPages] is accepted, and with a non-zero fraction the page it
   * names lies strictly between two consecutive whole numbers, so it is not
   * whole.
   */
  lemma FractionalInputAccepted(whole: string, fraction: string, total: nat)
    requires whole != [] && AllDigits(whole) && AllDigits(fraction)
    requires 0.0 < DigitsValue(whole) as real + FractionValue(fraction) <= total as real
    ensures ToNumber(whole + "." + fraction) == Finite(DigitsValue(whole) as real + FractionValue(fraction))
    ensures PageAccepted(whole + "." + fraction, Some(total))
    ensures 0.0 < FractionValue(fraction) ==>
      DigitsValue(whole) as real < ToNumber(whole + "." + fraction).value < DigitsValue(whole) as real + 1.0
  {
    ToNumberWithFraction(whole, fraction);
    AcceptedOfValue(whole + "." + fraction, DigitsValue(whole) as real + FractionValue(fraction), total);
  }

  /**
   * From a page that is not whole, next never meets `totalPages`: after
   * `totalPages` clicks the page is past the last one and the button is still
   * enabled; and previous goes below 1 from any such page between 1 and 2.
   */
  lemma FractionalPageEscapesRange(page: real, total: nat)
    requires !IsWhole(page) && 0.0 < page
    ensures NextClicks(page, Some(total), total) > total as real
    ensures !NextDisabled(NextClicks(page, Some(total), total), Some(total))
    ensures 1.0 < page < 2.0 ==> !PrevDisabled(page) && PrevPage(page) < 1.0
  {
    NextClicksFromFraction(page, Some(total), total);
    assert (page + total as real).Floor == page.Floor + total;
  }

  /** The text a button writes into the page field for a whole page reads back as that page. */
  lemma WholeFieldReadsBack(page: real)
    requires IsWhole(page)
    ensures ToNumber(ShowNumber(page)) == Finite(page)
  {
    ShowNumberRoundTrip(page.Floor);
  }

  class Viewer {
    /** The text of the form's `page` field. */
    var pageField: string
    var currentPage: real
    var totalPages: Option<nat>
    var currentRotation: int

    constructor ()
      ensures pageField == "1" && currentPage == 1.0 && totalPages == None && currentRotation == 0
    {
      pageField := "1";
      currentPage := 1.0;
      totalPages := None;
      currentRotation := 0;
    }

    /** Typing into the page field. */
    method EditPage(text: string)
      modifies this
      ensures pageField == text
      ensures currentPage == old(currentPage) && totalPages == old(totalPages) && currentRotation == old(currentRotation)
    {
      pageField := text;
    }

    /**
     * Enter in the page field: validate it; when accepted, `handlePageSubmit`
     * sets the current page to `Number(page)` and the field to `String(page)`,
     * which is the same text.
     */
    method SubmitPage() returns (accepted: bool)
      modifies this
      ensures accepted == PageAccepted(old(pageField), totalPages)
      ensures pageField == old(pageField) && totalPages == old(totalPages) && currentRotation == old(currentRotation)
      ensures accepted ==> currentPage == ToNumber(pageField).value && 0.0 < currentPage
      ensures accepted && IsWhole(currentPage) ==> InRange(currentPage, totalPages)
      ensures !accepted ==> currentPage == old(currentPage)
    {
      accepted := PageAccepted(pageField, totalPages);
      if accepted {
        PageAcceptedIff(pageField, totalPages);
        // `setValue("page", String(page))` writes back the same text.
        currentPage := ToNumber(pageField).value;
        if IsWhole(currentPage) {
          WholePageInRange(currentPage, totalPages.value);
        }
      }
    }

    /**
     * The previous button. The field shows `String(currentPage - 1)` computed
     * from the page before the click, whatever the updater's clamp returns.
     */
    method ClickPrevious()
      modifies this
      ensures totalPages == old(totalPages) && currentRotation == old(currentRotation)
      ensures old(PrevDisabled(currentPage)) ==> currentPage == old(currentPage) && pageField == old(pageField)
      ensures !old(PrevDisabled(currentPage)) ==>
        currentPage == PrevPage(old(currentPage)) && pageField == ShowNumber(old(currentPage) - 1.0)
      ensures old(InRange(currentPage, totalPages)) ==> InRange(currentPage, totalPages)
      ensures IsWhole(old(currentPage)) && !old(PrevDisabled(currentPage)) ==> ToNumber(pageField) == Finite(currentPage)
    {
      if PrevDisabled(currentPage) {
        return;
      }
      var before := currentPage;
      if InRange(currentPage, totalPages) {
        PrevKeepsRange(currentPage, totalPages);
      }
      currentPage := PrevPage(currentPage);
      pageField := ShowNumber(before - 1.0);
      if IsWhole(before) {
        WholeFieldReadsBack(before - 1.0);
      }
    }

    /**
     * The next button. The field shows `String(currentPage + 1)` computed
     * from the page before the click.
     */
    method ClickNext()
      modifies this
      ensures totalPages == old(totalPages) && currentRotation == old(currentRotation)
      ensures old(NextDisabled(currentPage, totalPages)) ==> currentPage == old(currentPage) && pageField == old(pageField)
      ensures !old(NextDisabled(currentPage, totalPages)) ==>
        currentPage == NextPage(old(currentPage), totalPages) && pageField == ShowNumber(old(currentPage) + 1.0)
      ensures old(InRange(currentPage, totalPages)) ==> InRange(currentPage, totalPages)
      ensures IsWhole(old(currentPage)) && !old(NextDisabled(currentPage, totalPages)) ==> ToNumber(pageField) == Finite(currentPage)
    {
      if NextDisabled(currentPage, totalPages) {
        return;
      }
      var before := currentPage;
      if InRange(currentPage, totalPages) {
        NextKeepsRange(currentPage, totalPages);
      }
      currentPage := NextPage(currentPage, totalPages);
      pageField := ShowNumber(before + 1.0);
      if IsWhole(before) {
        WholeFieldReadsBack(before + 1.0);
      }
    }

    /** The rotate button: 90 more degrees each click, never reduced modulo 360. */
    method Rotate()
      modifies this
      ensures currentRotation == old(currentRotation) + 90
      ensures pageField == old(pageField) && currentPage == old(currentPage) && totalPages == old(totalPages)
    {
      currentRotation := currentRotation + 90;
    }

    /** `onLoadSuccess`: the page count becomes the document's. */
    method LoadSuccess(numPages: nat)
      modifies this
      ensures totalPages == Some(numPages)
      ensures pageField == old(pageField) && currentPage == old(currentPage) && currentRotation == old(currentRotation)
      ensures currentPage == 1.0 && numPages >= 1 ==> InRange(currentPage, totalPages)
    {
      totalPages := Some(numPages);
    }
  }
}
