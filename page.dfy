/**
 * The page controller: the two overlays (contact popup and thank-you page)
 * with the body's scroll lock and the inline message inside the popup, the
 * two form submissions, in-page anchor scrolling and the navigation bar's
 * scroll styling.
 *
 * The script looks up its DOM elements once at load time and then uses some
 * of them without a null check; each such element has an `...Exists` flag
 * here, and a use of a missing one ends the handler with `TypeError`.
 */
module Page {
  import opened Wrappers
  import Siblings

  /**
   * How a handler ends: normally, by reading a property of a missing (null)
   * element, or by an exception from `localStorage` (access denied, quota
   * exceeded, a stored history that is not JSON or not an array) escaping
   * before the request.
   */
  datatype Outcome = Completed | TypeError | StorageError

  /** The outcome of a `fetch` to the form endpoint: `response.ok`, a non-ok status, or a thrown network error. */
  datatype Response = Ok | HttpError | NetworkError

  /** What a click on an overlay landed on: the overlay container itself (its backdrop) or something inside it. */
  datatype ClickTarget = Container | Inside

  datatype NavStyle =
    | Transparent  // background transparent, no shadow, no blur
    | Opaque       // white 95% background, shadow, 10px blur

  datatype ContactRecord = ContactRecord(firstName: string, lastName: string, email: string, message: string, timestamp: string)

  datatype EbookRequest = EbookRequest(email: string, firstName: string, lastName: string, phone: string, timestamp: string)

  const ContactSuccessText: string := "Thank you! Your message has been sent. I'll respond shortly."
  const ContactFailureText: string := "Oops! There was a problem sending your message. Please try again."
  const EbookAlertText: string := "Oops! There was a problem submitting your form. Please try again."
  const EbookFile: string := "AIForSmallBusinesseBook.pdf"
  const PhoneDefault: string := "Not provided"
  /** The fixed height of the navigation bar subtracted from an anchor target's offset. */
  const NavHeight: int := 80
  /** The scroll offset above which the navigation bar turns opaque. */
  const NavThreshold: int := 100

  class Overlays {
    const contactExists: bool
    const thankYouExists: bool
    const downloadLinkExists: bool
    /** The popup carries the `hidden` class. */
    var contactHidden: bool
    /** The thank-you page carries the `hidden` class. */
    var thankYouHidden: bool
    /** `document.body.style.overflow` is `'hidden'` (rather than `''`). */
    var overflowHidden: bool
    /** The element siblings after the contact form inside the popup, nearest first. */
    var formFollowing: seq<Siblings.Element>
    var downloadHref: string
    var downloadName: string

    /** At most one inline message in the popup. */
    ghost predicate Valid()
      reads this
    {
      Siblings.Count(formFollowing, Siblings.SuccessMessageClass) <= 1
    }

    /**
     * The page as loaded, assuming its markup gives both overlays the `hidden`
     * class and the body no inline `overflow`; `following` are the elements
     * after the contact form.
     */
    constructor (contactExists: bool, thankYouExists: bool, downloadLinkExists: bool, following: seq<Siblings.Element>)
      requires Siblings.Count(following, Siblings.SuccessMessageClass) <= 1
      ensures Valid()
      ensures this.contactExists == contactExists && this.thankYouExists == thankYouExists
      ensures this.downloadLinkExists == downloadLinkExists
      ensures contactHidden && thankYouHidden && !overflowHidden && formFollowing == following
      ensures downloadHref == "" && downloadName == ""
    {
      this.contactExists := contactExists;
      this.thankYouExists := thankYouExists;
      this.downloadLinkExists := downloadLinkExists;
      contactHidden, thankYouHidden, overflowHidden := true, true, false;
      formFollowing := following;
      downloadHref, downloadName := "", "";
    }

    /** `showContactFormPopup()`: the open button's click handler. */
    method ShowContactFormPopup() returns (o: Outcome)
      modifies this`contactHidden, this`overflowHidden
      ensures o == if contactExists then Completed else TypeError
      ensures contactExists ==> !contactHidden && overflowHidden
      ensures !contactExists ==> contactHidden == old(contactHidden) && overflowHidden == old(overflowHidden)
    {
      if !contactExists {
        return TypeError;
      }
      contactHidden := false;
      overflowHidden := true;
      o := Completed;
    }

    /** `hideContactFormPopup()`: the close button, the backdrop, Escape and the auto-close timer. */
    method HideContactFormPopup() returns (o: Outcome)
      requires Valid()
      modifies this`contactHidden, this`overflowHidden, this`formFollowing
      ensures Valid()
      ensures o == if contactExists then Completed else TypeError
      ensures contactExists ==>
                contactHidden && !overflowHidden
                && formFollowing == Siblings.RemoveFirstWithClass(old(formFollowing), Siblings.SuccessMessageClass)
                && Siblings.Count(formFollowing, Siblings.SuccessMessageClass) == 0
      ensures !contactExists ==> contactHidden == old(contactHidden) && overflowHidden == old(overflowHidden)
                                 && formFollowing == old(formFollowing)
    {
      if !contactExists {
        return TypeError;
      }
      contactHidden := true;
      overflowHidden := false;
      Siblings.RemoveFirstClears(formFollowing, Siblings.SuccessMessageClass);
      formFollowing := Siblings.RemoveFirstWithClass(formFollowing, Siblings.SuccessMessageClass);
      o := Completed;
    }

    /** `showThankYouPage()`; the download link is set last, so a missing link fails after the page is shown. */
    method ShowThankYouPage() returns (o: Outcome)
      modifies this`thankYouHidden, this`overflowHidden, this`downloadHref, this`downloadName
      ensures o == if thankYouExists && downloadLinkExists then Completed else TypeError
      ensures thankYouExists ==> !thankYouHidden && overflowHidden
      ensures !thankYouExists ==> thankYouHidden == old(thankYouHidden) && overflowHidden == old(overflowHidden)
      ensures thankYouExists && downloadLinkExists ==> downloadHref == EbookFile && downloadName == EbookFile
      ensures !(thankYouExists && downloadLinkExists) ==> downloadHref == old(downloadHref) && downloadName == old(downloadName)
    {
      if !thankYouExists {
        return TypeError;
      }
      thankYouHidden := false;
      overflowHidden := true;
      if !downloadLinkExists {
        return TypeError;
      }
      downloadHref := EbookFile;
      downloadName := EbookFile;
      o := Completed;
    }

    /** `hideThankYouPage()`: the close button, the backdrop and Escape. */
    method HideThankYouPage() returns (o: Outcome)
      modifies this`thankYouHidden, this`overflowHidden
      ensures o == if thankYouExists then Completed else TypeError
      ensures thankYouExists ==> thankYouHidden && !overflowHidden
      ensures !thankYouExists ==> thankYouHidden == old(thankYouHidden) && overflowHidden == old(overflowHidden)
    {
      if !thankYouExists {
        return TypeError;
      }
      thankYouHidden := true;
      overflowHidden := false;
      o := Completed;
    }

    /** The popup's click listener, registered only when the popup exists: it closes only on a backdrop click. */
    method OnContactClick(target: ClickTarget)
      requires contactExists && Valid()
      modifies this`contactHidden, this`overflowHidden, this`formFollowing
      ensures Valid()
      ensures target == Inside ==> contactHidden == old(contactHidden) && overflowHidden == old(overflowHidden)
                                   && formFollowing == old(formFollowing)
      ensures target == Container ==>
                contactHidden && !overflowHidden
                && formFollowing == Siblings.RemoveFirstWithClass(old(formFollowing), Siblings.SuccessMessageClass)
    {
      if target == Container {
        var _ := HideContactFormPopup();
      }
    }

    /** The thank-you page's click listener, registered only when the page exists: it closes only on a backdrop click. */
    method OnThankYouClick(target: ClickTarget)
      requires thankYouExists
      modifies this`thankYouHidden, this`overflowHidden
      ensures target == Inside ==> thankYouHidden == old(thankYouHidden) && overflowHidden == old(overflowHidden)
      ensures target == Container ==> thankYouHidden && !overflowHidden
    {
      if target == Container {
        var _ := HideThankYouPage();
      }
    }

    /**
     * The document's keydown listener. Escape hides whichever overlays are
     * visible, the thank-you page first; it reads both overlays' class lists
     * without a null check. Any other key changes nothing.
     */
    method OnKeyDown(key: string) returns (o: Outcome)
      requires Valid()
      modifies this`contactHidden, this`thankYouHidden, this`overflowHidden, this`formFollowing
      ensures Valid()
      ensures key != "Escape" ==> o == Completed && unchanged(this)
      ensures key == "Escape" ==> o == if thankYouExists && contactExists then Completed else TypeError
      // the thank-you page ends hidden: a visible one is hidden, a hidden one is left alone
      ensures key == "Escape" && thankYouExists ==> thankYouHidden
      ensures key != "Escape" || !thankYouExists || old(thankYouHidden) ==> thankYouHidden == old(thankYouHidden)
      // the popup is reached only when the thank-you page exists
      ensures key == "Escape" && thankYouExists && contactExists ==> contactHidden
      ensures key != "Escape" || !(thankYouExists && contactExists) || old(contactHidden) ==>
                contactHidden == old(contactHidden) && formFollowing == old(formFollowing)
      ensures key == "Escape" && thankYouExists && contactExists && !old(contactHidden) ==>
                formFollowing == Siblings.RemoveFirstWithClass(old(formFollowing), Siblings.SuccessMessageClass)
      // scrolling is restored exactly when an overlay was closed
      ensures var closedThankYou := key == "Escape" && thankYouExists && !old(thankYouHidden);
              var closedContact := key == "Escape" && thankYouExists && contactExists && !old(contactHidden);
              overflowHidden == if closedThankYou || closedContact then false else old(overflowHidden)
    {
      if key != "Escape" {
        return Completed;
      }
      if !thankYouExists {
        return TypeError;
      }
      if !thankYouHidden {
        var _ := HideThankYouPage();
      }
      if !contactExists {
        return TypeError;
      }
      if !contactHidden {
        var _ := HideContactFormPopup();
      }
      o := Completed;
    }

    /**
     * `showSuccessMessageInPopup(contactForm, message)`: the first `success-message`
     * element is removed and a new one carrying `message` is put directly after the form.
     */
    method ShowSuccessMessageInPopup(message: string)
      requires Valid()
      modifies this`formFollowing
      ensures Valid()
      ensures formFollowing == Siblings.ReplaceFirst(old(formFollowing), Siblings.SuccessMessageClass, message)
      ensures Siblings.Count(formFollowing, Siblings.SuccessMessageClass) == 1
      ensures Siblings.FirstIndex(formFollowing, Siblings.SuccessMessageClass) == 0 && formFollowing[0].text == message
    {
      Siblings.ReplaceFirstLeavesOne(formFollowing, Siblings.SuccessMessageClass, message);
      var i := Siblings.FirstIndex(formFollowing, Siblings.SuccessMessageClass);
      if i < |formFollowing| {
        formFollowing := formFollowing[..i] + formFollowing[i + 1..];
      }
      formFollowing := [Siblings.Created(Siblings.SuccessMessageClass, message)] + formFollowing;
    }
  }

  /** The browser's local storage under the keys `contactHistory` and `ebookRequest`. */
  class Storage {
    var contactHistory: seq<ContactRecord>
    var ebookRequest: Option<EbookRequest>

    constructor (history: seq<ContactRecord>, request: Option<EbookRequest>)
      ensures contactHistory == history && ebookRequest == request
    {
      contactHistory := history;
      ebookRequest := request;
    }

    /** Read the history, push one record, write it back. */
    method AppendContact(r: ContactRecord)
      modifies this`contactHistory
      ensures contactHistory == old(contactHistory) + [r]
    {
      contactHistory := contactHistory + [r];
    }

    /** The single `ebookRequest` entry is overwritten. */
    method SaveEbookRequest(r: EbookRequest)
      modifies this`ebookRequest
      ensures ebookRequest == Some(r)
    {
      ebookRequest := Some(r);
    }
  }

  /** `formData.get('phone') || 'Not provided'`: a missing or empty phone number is replaced by the default. */
  function PhoneOrDefault(phone: Option<string>): (p: string)
    ensures p == PhoneDefault <==> phone.None? || phone.value == "" || phone.value == PhoneDefault
    ensures phone.Some? && phone.value != "" ==> p == phone.value
  {
    match phone
    case Some(v) => if v != "" then v else PhoneDefault
    case None => PhoneDefault
  }

  /**
   * The contact form's submit handler. The record is stored before the request
   * is made, whatever its outcome; the popup then shows the success or the
   * failure text, and only a success schedules the 3-second auto-close. When
   * reading or writing `localStorage` throws, the exception escapes before the
   * request: nothing is stored and the popup is left alone.
   */
  method SubmitContact(store: Storage, ui: Overlays, r: ContactRecord, storageFails: bool, response: Response)
    returns (o: Outcome, autoCloseScheduled: bool)
    requires ui.Valid()
    modifies store`contactHistory, ui`formFollowing
    ensures ui.Valid()
    ensures storageFails ==> o == StorageError && !autoCloseScheduled && unchanged(store) && unchanged(ui)
    ensures !storageFails ==> o == Completed
    ensures !storageFails ==> store.contactHistory == old(store.contactHistory) + [r]
    ensures !storageFails ==> |store.contactHistory| == |old(store.contactHistory)| + 1
                              && store.contactHistory[..|old(store.contactHistory)|] == old(store.contactHistory)
    ensures !storageFails ==>
              var shown := if response == Ok then ContactSuccessText else ContactFailureText;
              ui.formFollowing == Siblings.ReplaceFirst(old(ui.formFollowing), Siblings.SuccessMessageClass, shown)
              && Siblings.Count(ui.formFollowing, Siblings.SuccessMessageClass) == 1
              && ui.formFollowing[0].text == shown
    ensures !storageFails ==> (autoCloseScheduled <==> response == Ok)
  {
    if storageFails {
      return StorageError, false;
    }
    store.AppendContact(r);
    assert store.contactHistory[..|old(store.contactHistory)|] == old(store.contactHistory);
    if response == Ok {
      ui.ShowSuccessMessageInPopup(ContactSuccessText);
      autoCloseScheduled := true;
    } else {
      ui.ShowSuccessMessageInPopup(ContactFailureText);
      autoCloseScheduled := false;
    }
    o := Completed;
  }

  /** The 3-second timer set by a successful contact submission: it hides the popup, whatever its state by then. */
  method AutoCloseContact(ui: Overlays) returns (o: Outcome)
    requires ui.Valid()
    modifies ui`contactHidden, ui`overflowHidden, ui`formFollowing
    ensures ui.Valid()
    ensures o == if ui.contactExists then Completed else TypeError
    ensures ui.contactExists ==> ui.contactHidden && !ui.overflowHidden
                                 && Siblings.Count(ui.formFollowing, Siblings.SuccessMessageClass) == 0
    ensures ui.contactExists ==>
              ui.formFollowing == Siblings.RemoveFirstWithClass(old(ui.formFollowing), Siblings.SuccessMessageClass)
    ensures !ui.contactExists ==> unchanged(ui)
  {
    o := ui.HideContactFormPopup();
  }

  /**
   * The eBook form's submit handler. The request is stored before the request
   * is made; on success the thank-you page is shown, and an error it raises is
   * caught by the same handler that alerts on a failed submission. When writing
   * to `localStorage` throws, the exception escapes before the request: nothing
   * is stored, nothing is shown and there is no alert.
   */
  method SubmitEbook(store: Storage, ui: Overlays, email: string, firstName: string, lastName: string,
                     phone: Option<string>, timestamp: string, storageFails: bool, response: Response)
    returns (o: Outcome, alerted: bool)
    modifies store`ebookRequest, ui`thankYouHidden, ui`overflowHidden, ui`downloadHref, ui`downloadName
    ensures storageFails ==> o == StorageError && !alerted && unchanged(store) && unchanged(ui)
    ensures !storageFails ==> o == Completed
    ensures !storageFails ==>
              store.ebookRequest == Some(EbookRequest(email, firstName, lastName, PhoneOrDefault(phone), timestamp))
    ensures !storageFails && response != Ok ==> alerted && unchanged(ui)
    ensures !storageFails && response == Ok ==> (alerted <==> !(ui.thankYouExists && ui.downloadLinkExists))
    ensures !storageFails && response == Ok && ui.thankYouExists ==> !ui.thankYouHidden && ui.overflowHidden
    ensures !storageFails && response == Ok && ui.thankYouExists && ui.downloadLinkExists ==>
              ui.downloadHref == EbookFile && ui.downloadName == EbookFile
    ensures !storageFails && response == Ok && !ui.thankYouExists ==> unchanged(ui)
  {
    if storageFails {
      return StorageError, false;
    }
    store.SaveEbookRequest(EbookRequest(email, firstName, lastName, PhoneOrDefault(phone), timestamp));
    if response == Ok {
      var shown := ui.ShowThankYouPage();
      alerted := shown == TypeError;
    } else {
      alerted := true;
    }
    o := Completed;
  }

  /**
   * Where an in-page link scrolls to: nowhere for `#`, nowhere for a fragment
   * with no element, otherwise 80 above the element's `offsetTop` (`targets`).
   */
  function AnchorScrollTop(href: string, targets: map<string, int>): (top: Option<int>)
    ensures top.Some? <==> href != "#" && href in targets
    ensures top.Some? ==> targets[href] - top.value == NavHeight
  {
    if href == "#" || href !in targets then None else Some(targets[href] - NavHeight)
  }

  /** `window.pageYOffset || document.documentElement.scrollTop`: a zero page offset falls back to the document's. */
  function EffectiveScrollTop(pageYOffset: int, documentScrollTop: int): (top: int)
  {
    if pageYOffset != 0 then pageYOffset else documentScrollTop
  }

  function NavStyleAt(scrollTop: int): (s: NavStyle)
    ensures s == Opaque <==> scrollTop > NavThreshold
  {
    if scrollTop > NavThreshold then Opaque else Transparent
  }

  /** The window: the last smooth-scroll request and the navigation bar's styling. */
  class Viewport {
    const navExists: bool
    /** The `top` of the last `window.scrollTo` request, if any. */
    var scrollRequest: Option<int>
    var navStyle: NavStyle
    var lastScrollTop: int

    constructor (navExists: bool)
      ensures this.navExists == navExists
      ensures scrollRequest == None && navStyle == Transparent && lastScrollTop == 0
    {
      this.navExists := navExists;
      scrollRequest := None;
      navStyle := Transparent;
      lastScrollTop := 0;
    }

    /** The click listener of an anchor whose `href` starts with `#`. */
    method OnAnchorClick(href: string, targets: map<string, int>)
      requires |href| > 0 && href[0] == '#'
      modifies this`scrollRequest
      ensures href == "#" || href !in targets ==> scrollRequest == old(scrollRequest)
      ensures href != "#" && href in targets ==> scrollRequest == Some(targets[href] - NavHeight)
    {
      if href == "#" {
        return;
      }
      var top := AnchorScrollTop(href, targets);
      if top.Some? {
        scrollRequest := top;
      }
    }

    /** The window's scroll listener; `nav` is used without a null check. */
    method OnScroll(pageYOffset: int, documentScrollTop: int) returns (o: Outcome)
      modifies this`navStyle, this`lastScrollTop
      ensures o == if navExists then Completed else TypeError
      ensures navExists ==> var top := EffectiveScrollTop(pageYOffset, documentScrollTop);
                            (navStyle == Opaque <==> top > NavThreshold) && lastScrollTop == top
      ensures !navExists ==> navStyle == old(navStyle) && lastScrollTop == old(lastScrollTop)
    {
      var top := EffectiveScrollTop(pageYOffset, documentScrollTop);
      if !navExists {
        return TypeError;
      }
      navStyle := NavStyleAt(top);
      lastScrollTop := top;
      o := Completed;
    }
  }

  /**
   * Both overlays share one scroll lock. After a successful contact submission
   * the user closes the popup and the thank-you page opens; when the 3-second
   * timer then fires on the already hidden popup, it changes nothing about the
   * popup but restores scrolling under the visible thank-you page.
   */
  method AutoCloseAfterManualClose() returns (thankYouVisible: bool, scrollLocked: bool)
    ensures thankYouVisible && !scrollLocked
  {
    var ui := new Overlays(true, true, true, []);
    var store := new Storage([], None);
    var _ := ui.ShowContactFormPopup();
    var _, scheduled := SubmitContact(store, ui, ContactRecord("A", "B", "a@b.co", "hi", "t"), false, Ok);
    assert scheduled;
    var _ := ui.HideContactFormPopup();
    var _, _ := SubmitEbook(store, ui, "a@b.co", "A", "B", None, "t", false, Ok);
    var _ := AutoCloseContact(ui);
    thankYouVisible := !ui.thankYouHidden;
    scrollLocked := ui.overflowHidden;
  }
}
