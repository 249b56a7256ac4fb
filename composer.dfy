/** The code-composer controller of index.js and src/js/index.js: the
    selected section and number, the digit field, the result text, the two
    button groups' active marks, the theme flag, and the two outside effects
    the handlers have (clipboard writes and `localStorage`). One method per
    event the scripts listen to. */
module Composer {
  import opened Options
  import opened CodeFormat
  import opened Shortcuts
  import opened Theme

  /** Which of the two scripts the controller follows. */
  datatype Variant = RootIndex | SrcIndex

  const DefaultSection: string := "OD"
  const DefaultNumber: string := "24"

  /** The section key dispatch of a variant: the value of the section button
      the key clicks, if any. */
  function SectionShortcut(variant: Variant, key: string): (r: Option<string>)
    ensures r.Some? <==> key in SectionKeys
    ensures r.Some? ==> r.value in SectionValues
    ensures variant == RootIndex ==>
              forall i :: 0 <= i < |SectionKeys| ==> (key == SectionKeys[i] <==> r == Some(SectionValues[i]))
    ensures variant == SrcIndex && r.Some? ==> r.value == DefaultSection
  {
    match variant
    case RootIndex =>
      (match RootShortcut(key)
       case Some(PickSection(v)) => Some(v)
       case _ => None)
    case SrcIndex => SrcSectionShortcut(key)
  }

  /** The number key dispatch of a variant. */
  function NumberShortcut(variant: Variant, key: string): (r: Option<string>)
    ensures r.Some? <==> key in NumberKeys
    ensures r.Some? ==> r.value in NumberValues
    ensures variant == RootIndex ==>
              forall i :: 0 <= i < |NumberKeys| ==> (key == NumberKeys[i] <==> r == Some(NumberValues[i]))
    ensures variant == SrcIndex && r.Some? ==> r.value == NumberValues[0]
  {
    match variant
    case RootIndex =>
      (match RootShortcut(key)
       case Some(PickNumber(v)) => Some(v)
       case _ => None)
    case SrcIndex => SrcNumberShortcut(key)
  }

  /** The result text at page load, before anything is typed. */
  lemma InitialCode()
    ensures ResultCode(DefaultSection, DefaultNumber, []) == "OD-24-F0000000"
  {
    var field := PadStart([], Width, '0');
    assert forall k :: 0 <= k < Width ==> field[k] == "0000000"[k];
    assert field == "0000000";
  }

  /** The button whose data attribute equals `v`: the element
      `querySelector('[data-…="v"]')` returns, the first match in document order. */
  function IndexOf(values: seq<string>, v: string): (i: nat)
    requires v in values
    ensures i < |values| && values[i] == v
    ensures forall j :: 0 <= j < i ==> values[j] != v
  {
    if values[0] == v then 0 else 1 + IndexOf(values[1..], v)
  }

  class Controller {
    const variant: Variant
    /** Whether the page has a theme toggle button. */
    const hasToggle: bool
    /** Whether each `.section-btn` / `.number-btn` has the class `active`. */
    const sectionActive: array<bool>
    const numberActive: array<bool>

    var section: string          // currentSection
    var number: string           // currentNumber
    var buffer: string           // codeInput.value
    var display: string          // resultCode.textContent
    var dark: bool               // document.body has the class dark-mode
    var storage: map<string, string>   // localStorage
    var clipboard: seq<string>   // the texts handed to the clipboard, oldest first

    /** Between events: exactly the selected button of each group is active,
        the field holds fewer than seven digits and nothing else, the result
        text is up to date, and the stored theme matches the page's. */
    ghost predicate Valid()
      reads this, sectionActive, numberActive
    {
      SelectionValid() && FieldValid() && ThemeValid()
    }

    /** Each group has one button per value, and a button is active exactly
        when its value is the selected one. */
    ghost predicate SelectionValid()
      reads this`section, this`number, sectionActive, numberActive
    {
      sectionActive != numberActive &&
      sectionActive.Length == |SectionValues| &&
      numberActive.Length == |NumberValues| &&
      section in SectionValues && number in NumberValues &&
      (forall j :: 0 <= j < sectionActive.Length ==> (sectionActive[j] <==> SectionValues[j] == section)) &&
      (forall j :: 0 <= j < numberActive.Length ==> (numberActive[j] <==> NumberValues[j] == number))
    }

    /** The field holds at most six digits, and the result text shows the state. */
    ghost predicate FieldValid()
      reads this`section, this`number, this`buffer, this`display
    {
      AllDigits(buffer) && |buffer| < Width &&
      display == ResultCode(section, number, buffer)
    }

    /** With the theme wiring present, the stored value is what the next page
        load would apply; without it the page stays light. */
    ghost predicate ThemeValid()
      reads this`dark, this`storage
    {
      (hasToggle ==> dark == SavedDark(storage)) &&
      (!hasToggle ==> !dark)
    }

    /** Page load: the defaults OD and 24 (the buttons the markup marks
        active), an empty field, the result text computed once, and dark mode
        taken from storage when the theme wiring is present. index.js wires
        the toggle without checking that it exists: on a page without one it
        throws there, after every other handler is registered, so only the
        theme load is skipped. src/js/index.js wires it only if it exists. */
    constructor (variant: Variant, hasToggle: bool, saved: map<string, string>)
      ensures Valid() && fresh(sectionActive) && fresh(numberActive)
      ensures this.variant == variant && this.hasToggle == hasToggle
      ensures section == DefaultSection && number == DefaultNumber && buffer == []
      ensures display == ResultCode(DefaultSection, DefaultNumber, [])
      ensures clipboard == [] && storage == saved
      ensures dark == (hasToggle && SavedDark(saved))
    {
      this.variant := variant;
      this.hasToggle := hasToggle;
      sectionActive := new bool[|SectionValues|](j requires 0 <= j < |SectionValues| => SectionValues[j] == DefaultSection);
      numberActive := new bool[|NumberValues|](j requires 0 <= j < |NumberValues| => NumberValues[j] == DefaultNumber);
      section := DefaultSection;
      number := DefaultNumber;
      buffer := [];
      storage := saved;
      clipboard := [];
      dark := hasToggle && SavedDark(saved);
      new;
      UpdateResult();
      assert FieldValid();
      assert ThemeValid();
      assert SelectionValid();
    }

    /** `updateResult`: recompute the result text from the state. */
    method UpdateResult()
      modifies this`display
      ensures display == ResultCode(section, number, buffer)
    {
      display := section + "-" + number + "-F" + PadStart(buffer, Width, '0');
    }

    /** `copyToClipboard`: the current result text is handed to the clipboard. */
    method CopyToClipboard()
      modifies this`clipboard
      ensures clipboard == old(clipboard) + [display]
    {
      var text := display;
      clipboard := clipboard + [text];
    }

    /** `resetInput`: empty the field and recompute the result text. */
    method ResetInput()
      modifies this`buffer, this`display
      ensures buffer == [] && display == ResultCode(section, number, [])
    {
      buffer := [];
      UpdateResult();
    }

    /** Click on the `i`-th section button: every button of the group loses
        `active`, the clicked one gains it, and its value becomes the section. */
    method ClickSection(i: nat)
      requires Valid() && i < sectionActive.Length
      modifies this`section, this`display, sectionActive
      ensures Valid()
      ensures section == SectionValues[i]
      ensures forall j :: 0 <= j < sectionActive.Length ==> (sectionActive[j] <==> j == i)
    {
      for j := 0 to sectionActive.Length
        modifies sectionActive
        invariant forall k :: 0 <= k < j ==> !sectionActive[k]
      {
        sectionActive[j] := false;
      }
      sectionActive[i] := true;
      section := SectionValues[i];
      ValuesDistinct();
      forall j | 0 <= j < sectionActive.Length
        ensures sectionActive[j] <==> SectionValues[j] == section
      {
        assert SectionValues[j] == SectionValues[i] ==> j == i;
      }
      assert SelectionValid();
      UpdateResult();
      assert FieldValid();
    }

    /** Click on the `i`-th number button, the same way for the number group. */
    method ClickNumber(i: nat)
      requires Valid() && i < numberActive.Length
      modifies this`number, this`display, numberActive
      ensures Valid()
      ensures number == NumberValues[i]
      ensures forall j :: 0 <= j < numberActive.Length ==> (numberActive[j] <==> j == i)
    {
      for j := 0 to numberActive.Length
        modifies numberActive
        invariant forall k :: 0 <= k < j ==> !numberActive[k]
      {
        numberActive[j] := false;
      }
      numberActive[i] := true;
      number := NumberValues[i];
      ValuesDistinct();
      forall j | 0 <= j < numberActive.Length
        ensures numberActive[j] <==> NumberValues[j] == number
      {
        assert NumberValues[j] == NumberValues[i] ==> j == i;
      }
      assert SelectionValid();
      UpdateResult();
      assert FieldValid();
    }

    /** The `input` event: `raw` is what the field holds after the edit. Only
        its digits are kept, at most seven of them; cutting digits off raises
        the error shake. Seven digits commit: the full code is handed to the
        clipboard once and the field is emptied. */
    method Input(raw: string) returns (shake: bool)
      requires Valid()
      modifies this`buffer, this`display, this`clipboard
      ensures Valid()
      ensures shake <==> |Sanitize(raw)| > Width
      ensures |Clean(raw)| == Width ==>
                clipboard == old(clipboard) + [ResultCode(section, number, Clean(raw))] && buffer == []
      ensures |Clean(raw)| < Width ==> clipboard == old(clipboard) && buffer == Clean(raw)
    {
      var value := Sanitize(raw);
      shake := false;
      if |value| > Width {
        value := value[..Width];
        shake := true;
      }
      assert value == Clean(raw);
      buffer := value;
      UpdateResult();
      if |buffer| == Width {
        CopyToClipboard();
        ResetInput();
      }
    }

    /** The copy button: copy the result text, then empty the field. */
    method CopyButton()
      requires Valid()
      modifies this`buffer, this`display, this`clipboard
      ensures Valid()
      ensures clipboard == old(clipboard) + [old(display)]
      ensures buffer == []
    {
      CopyToClipboard();
      ResetInput();
    }

    /** The global `keydown` listener. `onInput` says whether the event's target
        is the digit field: only there do Enter and F9 copy and reset, and
        Escape empty the field without copying. Function keys then click the
        button the variant's dispatch names; other keys change nothing. */
    method KeyDown(key: string, onInput: bool)
      requires Valid()
      modifies this`section, this`number, this`buffer, this`display, this`clipboard
      modifies sectionActive, numberActive
      ensures Valid()
      ensures clipboard == if onInput && (key == "Enter" || key == "F9")
                           then old(clipboard) + [old(display)] else old(clipboard)
      ensures buffer == if onInput && (key == "Enter" || key == "F9" || key == "Escape")
                        then [] else old(buffer)
      ensures section == match SectionShortcut(variant, key)
                         case Some(v) => v
                         case None => old(section)
      ensures number == match NumberShortcut(variant, key)
                        case Some(v) => v
                        case None => old(number)
      ensures SectionShortcut(variant, key).None? ==> unchanged(sectionActive)
      ensures NumberShortcut(variant, key).None? ==> unchanged(numberActive)
    {
      if onInput {
        FieldKey(key);
      }
      FunctionKey(key);
    }

    /** The part of the `keydown` listener for events aimed at the digit field. */
    method FieldKey(key: string)
      requires Valid()
      modifies this`buffer, this`display, this`clipboard
      ensures Valid()
      ensures clipboard == if key == "Enter" || key == "F9"
                           then old(clipboard) + [old(display)] else old(clipboard)
      ensures buffer == if key == "Enter" || key == "F9" || key == "Escape"
                        then [] else old(buffer)
    {
      if key == "Enter" || key == "F9" {
        CopyToClipboard();
        ResetInput();
      } else if key == "Escape" {
        buffer := [];
        UpdateResult();
      }
    }

    /** The function-key part of the `keydown` listener, whatever the target. */
    method FunctionKey(key: string)
      requires Valid()
      modifies this`section, this`number, this`display, sectionActive, numberActive
      ensures Valid()
      ensures section == match SectionShortcut(variant, key)
                         case Some(v) => v
                         case None => old(section)
      ensures number == match NumberShortcut(variant, key)
                        case Some(v) => v
                        case None => old(number)
      ensures SectionShortcut(variant, key).None? ==> unchanged(sectionActive)
      ensures NumberShortcut(variant, key).None? ==> unchanged(numberActive)
    {
      match variant {
        case RootIndex =>
          match RootShortcut(key) {
            case Some(PickSection(v)) => ClickSection(IndexOf(SectionValues, v));
            case Some(PickNumber(v)) => ClickNumber(IndexOf(NumberValues, v));
            case None =>
          }
        case SrcIndex =>
          match SrcSectionShortcut(key) {
            case Some(v) => ClickSection(IndexOf(SectionValues, v));
            case None =>
          }
          match SrcNumberShortcut(key) {
            case Some(v) => ClickNumber(IndexOf(NumberValues, v));
            case None =>
          }
      }
    }

    /** The theme toggle: flip dark mode and store the new setting. */
    method ToggleTheme()
      requires Valid() && hasToggle
      modifies this`dark, this`storage
      ensures Valid()
      ensures dark == !old(dark)
      ensures storage == old(storage)[ThemeKey := PersistedText(dark)]
    {
      dark := !dark;
      storage := storage[ThemeKey := PersistedText(dark)];
    }
  }
}
