/**
 * Element resolution and value injection (utils/dom.ts). The page's CSS and
 * XPath engines are an oracle: a `Page` maps each locator string to the
 * element the engine would return first, and a locator that is not in the map
 * finds nothing. A page element carries the fields `fillInput` writes (`value`,
 * `textContent`) and the log of the events dispatched on it.
 */
module Dom {
  import opened Types

  /** The synthetic events `fillInput` dispatches; both are created with `bubbles: true`. */
  datatype DomEvent = InputEvent | ChangeEvent

  /** The observable state of an element: what `fillInput` may change. */
  datatype FieldState = FieldState(value: string, textContent: string, events: seq<DomEvent>)

  class PageElement {
    /** `element.tagName` (upper case for HTML elements). */
    const tagName: string
    /** `element.getAttribute("contenteditable")`; None when the attribute is absent. */
    const contentEditable: Option<string>
    var value: string
    var textContent: string
    var events: seq<DomEvent>

    constructor (tagName: string, contentEditable: Option<string>)
      ensures this.tagName == tagName && this.contentEditable == contentEditable
      ensures value == "" && textContent == "" && events == []
    {
      this.tagName := tagName;
      this.contentEditable := contentEditable;
      value := "";
      textContent := "";
      events := [];
    }

    function State(): FieldState
      reads this
    {
      FieldState(value, textContent, events)
    }
  }

  predicate IsTextControl(tagName: string)
  {
    tagName == "INPUT" || tagName == "TEXTAREA"
  }

  /** The filter of `findInputElement`: a text control, or `contenteditable` exactly "true". */
  predicate Accepted(e: PageElement)
  {
    IsTextControl(e.tagName) || e.contentEditable == Some("true")
  }

  /** The two query engines as an oracle: locator string to first matching element. */
  datatype Page = Page(css: map<string, PageElement>, xpath: map<string, PageElement>)

  function ElementsOf(page: Page): set<PageElement>
  {
    page.css.Values + page.xpath.Values
  }

  /** `getElementByXPath` / `getElementBySelector`, chosen by the selector type. */
  function Lookup(page: Page, selector: string, kind: SelectorType): Option<PageElement>
  {
    var engine := if kind == XPath then page.xpath else page.css;
    if selector in engine then Some(engine[selector]) else None
  }

  /**
   * `findInputElement`: XPath evaluation for `xpath`, a CSS query otherwise;
   * the element found is returned exactly when it is fillable.
   */
  function FindInputElement(page: Page, selector: string, kind: SelectorType): (r: Option<PageElement>)
    ensures kind == XPath ==>
      (r.Some? <==> selector in page.xpath && Accepted(page.xpath[selector]))
      && (r.Some? ==> r.value == page.xpath[selector])
    ensures kind == Css ==>
      (r.Some? <==> selector in page.css && Accepted(page.css[selector]))
      && (r.Some? ==> r.value == page.css[selector])
    ensures r.Some? ==> r.value in ElementsOf(page)
  {
    var found := Lookup(page, selector, kind);
    if found.Some? && Accepted(found.value) then found else None
  }

  /**
   * The effect of `fillInput(element, v)` on an element with the given tag and
   * `contenteditable` attribute. `nativeSetter` says whether
   * `HTMLInputElement.prototype` exposes a `value` setter, which real browsers do.
   */
  function FillEffect(tagName: string, contentEditable: Option<string>, s: FieldState, v: string, nativeSetter: bool): (r: FieldState)
    ensures IsTextControl(tagName) ==>
      && r.value == v && r.textContent == s.textContent
      && r.events == s.events + [InputEvent, ChangeEvent] + (if nativeSetter then [InputEvent] else [])
    ensures !IsTextControl(tagName) && contentEditable == Some("true") ==>
      r.textContent == v && r.value == s.value && r.events == s.events + [InputEvent]
    ensures !IsTextControl(tagName) && contentEditable != Some("true") ==> r == s
  {
    if IsTextControl(tagName) then
      var afterEvents := s.events + [InputEvent, ChangeEvent];
      if nativeSetter then s.(value := v, events := afterEvents + [InputEvent])
      else s.(value := v, events := afterEvents)
    else if contentEditable == Some("true") then
      s.(textContent := v, events := s.events + [InputEvent])
    else s
  }

  /**
   * Filling an accepted element writes the value to the field it uses, keeps
   * the earlier log, and dispatches `input` first; the last event is `input`
   * too, except on a text control without the native setter, where it is `change`.
   */
  lemma FillAcceptedEndsWithInput(e: PageElement, s: FieldState, v: string, nativeSetter: bool)
    requires Accepted(e)
    ensures var r := FillEffect(e.tagName, e.contentEditable, s, v, nativeSetter);
      && |r.events| > |s.events|
      && r.events[..|s.events|] == s.events
      && r.events[|s.events|] == InputEvent
      && r.events[|r.events| - 1] == (if IsTextControl(e.tagName) && !nativeSetter then ChangeEvent else InputEvent)
      && (if IsTextControl(e.tagName) then r.value else r.textContent) == v
  {
  }

  /** `fillInput`: assign, then dispatch, in the source's order. */
  method FillInput(e: PageElement, v: string, nativeSetter: bool)
    modifies e
    ensures e.State() == FillEffect(e.tagName, e.contentEditable, old(e.State()), v, nativeSetter)
  {
    if e.tagName == "INPUT" || e.tagName == "TEXTAREA" {
      e.value := v;
      e.events := e.events + [InputEvent];
      e.events := e.events + [ChangeEvent];
      if nativeSetter {
        e.value := v;
        e.events := e.events + [InputEvent];
      }
    } else if e.contentEditable == Some("true") {
      e.textContent := v;
      e.events := e.events + [InputEvent];
    }
  }
}
