/**
 * The element siblings that follow a node in its parent, nearest first.
 * Both message helpers of the page insert a freshly created element directly
 * after a node and remove an earlier one by class: the validation helper looks
 * only at the nearest following element, the popup helper at the first match.
 */
module Siblings {

  datatype Element = Element(classes: set<string>, text: string)

  const ValidationErrorClass: string := "validation-error"
  const SuccessMessageClass: string := "success-message"

  /** A freshly created `div` whose `className` is `c` and whose `textContent` is `text`. */
  function Created(c: string, text: string): (e: Element)
  {
    Element({c}, text)
  }

  predicate HasClass(e: Element, c: string)
  {
    c in e.classes
  }

  /** How many elements of `s` carry class `c`. */
  function Count(s: seq<Element>, c: string): (n: nat)
    ensures n <= |s|
    ensures n == 0 <==> forall i :: 0 <= i < |s| ==> !HasClass(s[i], c)
  {
    if s == [] then 0 else (if HasClass(s[0], c) then 1 else 0) + Count(s[1..], c)
  }

  /** The elements of `s` that lack class `c`, in their order: what a removal by class `c` must leave alone. */
  function Without(s: seq<Element>, c: string): (r: seq<Element>)
    ensures |r| + Count(s, c) == |s|
    ensures forall i :: 0 <= i < |r| ==> !HasClass(r[i], c)
  {
    if s == [] then []
    else if HasClass(s[0], c) then Without(s[1..], c)
    else [s[0]] + Without(s[1..], c)
  }

  /** How many elements directly after the node, in an unbroken run, carry class `c`. */
  function LeadingRun(s: seq<Element>, c: string): (n: nat)
    ensures n <= |s|
    ensures forall i :: 0 <= i < n ==> HasClass(s[i], c)
    ensures n < |s| ==> !HasClass(s[n], c)
  {
    if s == [] || !HasClass(s[0], c) then 0 else 1 + LeadingRun(s[1..], c)
  }

  /** Position of the first element with class `c` (`querySelector`), or `|s|` when there is none. */
  function FirstIndex(s: seq<Element>, c: string): (i: nat)
    ensures i <= |s|
    ensures forall j :: 0 <= j < i ==> !HasClass(s[j], c)
    ensures i < |s| ==> HasClass(s[i], c)
  {
    if s == [] || HasClass(s[0], c) then 0 else 1 + FirstIndex(s[1..], c)
  }

  /**
   * `nextElementSibling` is removed when it carries class `c`: the unbroken run
   * of `c` elements after the node shrinks by one, and a list that does not
   * start with one is left as it was.
   */
  function RemoveNextWithClass(s: seq<Element>, c: string): (r: seq<Element>)
    ensures LeadingRun(r, c) == if LeadingRun(s, c) > 0 then LeadingRun(s, c) - 1 else 0
    ensures |r| == |s| - (if LeadingRun(s, c) > 0 then 1 else 0)
    ensures LeadingRun(s, c) == 0 ==> r == s
    ensures Without(r, c) == Without(s, c)
  {
    if |s| > 0 && HasClass(s[0], c) then s[1..] else s
  }

  /**
   * The first element with class `c` is removed, if there is one: the count of
   * `c` elements drops by one, the list by one element, and a list without any
   * is left as it was.
   */
  function RemoveFirstWithClass(s: seq<Element>, c: string): (r: seq<Element>)
    ensures Count(r, c) == if Count(s, c) > 0 then Count(s, c) - 1 else 0
    ensures |r| == |s| - (if Count(s, c) > 0 then 1 else 0)
    ensures Count(s, c) == 0 ==> r == s
    ensures Without(r, c) == Without(s, c)
    ensures FirstIndex(s, c) <= |r| && r[..FirstIndex(s, c)] == s[..FirstIndex(s, c)]
  {
    var i := FirstIndex(s, c);
    if i < |s| then
      DropAt(s, i, c);
      assert (s[..i] + s[i + 1..])[..i] == s[..i];
      s[..i] + s[i + 1..]
    else
      s
  }

  /**
   * Remove the nearest `c` element, then insert a new one carrying `text`
   * directly after the node: the run of `c` elements there keeps its length,
   * or becomes one when there was none.
   */
  function ReplaceNext(s: seq<Element>, c: string, text: string): (r: seq<Element>)
    ensures LeadingRun(r, c) == if LeadingRun(s, c) > 0 then LeadingRun(s, c) else 1
    ensures r[0].text == text
    ensures Without(r, c) == Without(s, c)
  {
    var r := [Created(c, text)] + RemoveNextWithClass(s, c);
    assert r[1..] == RemoveNextWithClass(s, c);
    r
  }

  /**
   * Remove the first `c` element, then insert a new one carrying `text`
   * directly after the node: the count of `c` elements is kept, or becomes one
   * when there was none, and the new element is the first `c` element.
   */
  function ReplaceFirst(s: seq<Element>, c: string, text: string): (r: seq<Element>)
    ensures Count(r, c) == if Count(s, c) > 0 then Count(s, c) else 1
    ensures FirstIndex(r, c) == 0 && r[0].text == text
    ensures r[1..] == RemoveFirstWithClass(s, c)
    ensures Without(r, c) == Without(s, c)
  {
    var r := [Created(c, text)] + RemoveFirstWithClass(s, c);
    assert r[1..] == RemoveFirstWithClass(s, c);
    r
  }

  lemma {:induction false} CountAppend(a: seq<Element>, b: seq<Element>, c: string)
    ensures Count(a + b, c) == Count(a, c) + Count(b, c)
  {
    if a == [] {
      assert a + b == b;
    } else {
      assert (a + b)[1..] == a[1..] + b;
      CountAppend(a[1..], b, c);
    }
  }

  lemma {:induction false} WithoutAppend(a: seq<Element>, b: seq<Element>, c: string)
    ensures Without(a + b, c) == Without(a, c) + Without(b, c)
  {
    if a == [] {
      assert a + b == b;
    } else {
      assert (a + b)[1..] == a[1..] + b;
      WithoutAppend(a[1..], b, c);
    }
  }

  /**
   * Dropping the element at position `i` lowers the count of `c` elements by
   * one exactly when that element carries `c`, and then leaves the elements
   * without `c` as they were.
   */
  lemma DropAt(s: seq<Element>, i: nat, c: string)
    requires i < |s|
    ensures Count(s[..i] + s[i + 1..], c) == Count(s, c) - (if HasClass(s[i], c) then 1 else 0)
    ensures HasClass(s[i], c) ==> Without(s[..i] + s[i + 1..], c) == Without(s, c)
  {
    assert s == s[..i] + ([s[i]] + s[i + 1..]);
    assert ([s[i]] + s[i + 1..])[1..] == s[i + 1..];
    CountAppend(s[..i], [s[i]] + s[i + 1..], c);
    CountAppend(s[..i], s[i + 1..], c);
    WithoutAppend(s[..i], [s[i]] + s[i + 1..], c);
    WithoutAppend(s[..i], s[i + 1..], c);
  }

  /**
   * After a replacement at the head, exactly one `c` element remains when at
   * most one was there before, and the first `c` element is the new one.
   */
  lemma ReplaceFirstLeavesOne(s: seq<Element>, c: string, text: string)
    requires Count(s, c) <= 1
    ensures var r := ReplaceFirst(s, c, text);
            Count(r, c) == 1 && FirstIndex(r, c) == 0 && r[0].text == text
  {
  }

  /** With at most one `c` element present, removing the first leaves none, and a second removal changes nothing. */
  lemma RemoveFirstClears(s: seq<Element>, c: string)
    requires Count(s, c) <= 1
    ensures Count(RemoveFirstWithClass(s, c), c) == 0
    ensures RemoveFirstWithClass(RemoveFirstWithClass(s, c), c) == RemoveFirstWithClass(s, c)
  {
  }

  /** Removing the nearest `c` element is idempotent as long as no two `c` elements are stacked after the node. */
  lemma RemoveNextIdempotent(s: seq<Element>, c: string)
    requires LeadingRun(s, c) <= 1
    ensures LeadingRun(RemoveNextWithClass(s, c), c) == 0
    ensures RemoveNextWithClass(RemoveNextWithClass(s, c), c) == RemoveNextWithClass(s, c)
  {
    if |s| > 0 && HasClass(s[0], c) {
      assert |s| > 1 ==> s[1..][0] == s[1];
    }
  }

  /**
   * Removal never touches an element without class `c`: a list that does not
   * start with one is left as it was, and otherwise only the first element goes.
   */
  lemma RemoveNextOnlyTouchesClass(s: seq<Element>, c: string)
    ensures RemoveNextWithClass(s, c) == s <==> LeadingRun(s, c) == 0
    ensures LeadingRun(s, c) > 0 ==> RemoveNextWithClass(s, c) == s[1..]
  {
  }

  /** Stacked `c` elements are why the bound above is needed: one removal then leaves another behind. */
  lemma RemoveNextStacked(s: seq<Element>, c: string)
    requires LeadingRun(s, c) >= 2
    ensures LeadingRun(RemoveNextWithClass(s, c), c) == LeadingRun(s, c) - 1
    ensures RemoveNextWithClass(RemoveNextWithClass(s, c), c) != RemoveNextWithClass(s, c)
  {
    assert s[1..][0] == s[1];
  }

  /** After a replacement at the nearest position, exactly one `c` element sits directly after the node and it carries the new text. */
  lemma ReplaceNextLeavesOne(s: seq<Element>, c: string, text: string)
    requires LeadingRun(s, c) <= 1
    ensures var r := ReplaceNext(s, c, text);
            LeadingRun(r, c) == 1 && r[0].text == text && r[1..] == RemoveNextWithClass(s, c)
  {
    RemoveNextIdempotent(s, c);
    var r := ReplaceNext(s, c, text);
    assert r[1..] == RemoveNextWithClass(s, c);
  }
}
