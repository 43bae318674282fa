/**
 * The page-navigation control (src/features/flags/Pagination.tsx): hidden
 * for a single page, otherwise Prev and Next buttons around a
 * `Page c of t` caption.
 */
module Pagination {
  import opened Text

  /** A button: whether it is disabled, and the page it asks for when clicked. */
  datatype PageButton = PageButton(disabled: bool, target: int)

  datatype PaginationView =
    | Hidden
    | Controls(prev: PageButton, caption: string, next: PageButton)

  function PaginationControl(currentPage: int, totalPages: int): (view: PaginationView)
    ensures view.Hidden? <==> totalPages <= 1
    ensures view.Controls? ==> view.prev == PageButton(currentPage <= 1, currentPage - 1)
    ensures view.Controls? ==> view.next == PageButton(currentPage >= totalPages, currentPage + 1)
    ensures view.Controls? ==> view.caption == "Page " + IntToString(currentPage) + " of " + IntToString(totalPages)
  {
    if totalPages <= 1 then Hidden
    else Controls(
      PageButton(currentPage <= 1, currentPage - 1),
      "Page " + IntToString(currentPage) + " of " + IntToString(totalPages),
      PageButton(currentPage >= totalPages, currentPage + 1))
  }

  /**
   * From any page, an enabled button asks for a page within `1..totalPages`,
   * and a page strictly inside the range has both buttons enabled.
   */
  lemma NavigationStaysInRange(currentPage: int, totalPages: int)
    requires totalPages > 1
    ensures var v := PaginationControl(currentPage, totalPages);
      (!v.prev.disabled ==> v.prev.target >= 1 && (currentPage <= totalPages ==> v.prev.target < totalPages))
      && (!v.next.disabled ==> v.next.target <= totalPages && (currentPage >= 1 ==> v.next.target > 1))
    ensures 1 < currentPage < totalPages ==>
      !PaginationControl(currentPage, totalPages).prev.disabled && !PaginationControl(currentPage, totalPages).next.disabled
  {
  }

  /** Reads the caption's two numbers back (the reference reading for the caption). */
  function ReadCaption(text: string): (pages: (int, int))
    requires |text| >= 5 && text[..5] == "Page "
    requires |Split(text[5..], ' ')| == 3
    requires IsIntLiteral(Split(text[5..], ' ')[0]) && IsIntLiteral(Split(text[5..], ' ')[2])
  {
    var words := Split(text[5..], ' ');
    (ParseInt(words[0]), ParseInt(words[2]))
  }

  /** The caption names the current page and the page count, and they can be read back from it. */
  lemma CaptionReadsBack(currentPage: int, totalPages: int)
    requires totalPages > 1
    ensures var text := PaginationControl(currentPage, totalPages).caption;
      |text| >= 5 && text[..5] == "Page "
      && |Split(text[5..], ' ')| == 3
      && Split(text[5..], ' ')[1] == "of"
      && IsIntLiteral(Split(text[5..], ' ')[0]) && IsIntLiteral(Split(text[5..], ' ')[2])
      && ReadCaption(text) == (currentPage, totalPages)
  {
    var c, t := IntToString(currentPage), IntToString(totalPages);
    var text := PaginationControl(currentPage, totalPages).caption;
    NoSpaceInInt(currentPage);
    NoSpaceInInt(totalPages);
    assert [c, "of", t][1..] == ["of", t] && ["of", t][1..] == [t];
    assert Join(" ", ["of", t]) == "of" + " " + t;
    assert Join(" ", [c, "of", t]) == c + " " + ("of" + " " + t);
    assert text == "Page " + (c + " " + ("of" + " " + t));
    assert text[5..] == Join(" ", [c, "of", t]);
    SplitJoin([c, "of", t], ' ');
    IntToStringRoundTrip(currentPage);
    IntToStringRoundTrip(totalPages);
  }

  lemma NoSpaceInInt(i: int)
    ensures ' ' !in IntToString(i)
  {
    var s := IntToString(i);
    if i < 0 {
      assert s[1..] == NatToString(-i);
      assert forall k :: 1 <= k < |s| ==> IsDigit(s[k]);
    } else {
      assert AllDigits(s);
    }
  }

  /** The behaviour the component's tests pin down. */
  lemma PaginationExamples()
    ensures PaginationControl(1, 1).Hidden? && PaginationControl(1, 0).Hidden?
    ensures PaginationControl(1, 5).prev.disabled
    ensures PaginationControl(5, 5).next.disabled
    ensures !PaginationControl(3, 5).prev.disabled && !PaginationControl(3, 5).next.disabled
    ensures PaginationControl(2, 10).caption == "Page 2 of 10"
    ensures PaginationControl(2, 5).next.target == 3
    ensures PaginationControl(3, 5).prev.target == 2
  {
    assert NatToString(1) == "1";
    assert IntToString(2) == "2" && IntToString(10) == "10";
  }
}
