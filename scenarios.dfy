/** Sessions with the controller, written as clients: each one follows a
    sequence of events from page load and states what the page shows and
    what reached the clipboard and storage. */
module ComposerScenarios {
  import opened CodeFormat
  import opened Composer

  /** A fresh page shows OD-24-F0000000. */
  method PageLoad() {
    InitialCode();
    var c := new Controller(RootIndex, true, map[]);
    assert c.display == "OD-24-F0000000";
  }

  /** Typing seven digits on a fresh page commits OD-24-F followed by those
      digits, and empties the field. */
  method TypeSevenDigits(digits: string)
    requires AllDigits(digits) && |digits| == Width
  {
    CleanIdempotent(digits);
    FullCodeUnpadded(DefaultSection, DefaultNumber, digits);
    assert DefaultSection + "-" + DefaultNumber + "-F" == "OD-24-F";
    var c := new Controller(RootIndex, true, map[]);
    var shake := c.Input(digits);
    assert c.clipboard == ["OD-24-F" + digits];
    assert c.buffer == [] && !shake;
  }

  /** More than seven digits at once: the extra ones are cut off with the
      error shake, and the first seven are committed. */
  method TypeTooManyDigits(digits: string)
    requires AllDigits(digits) && |digits| > Width
  {
    SanitizeDigitsFixed(digits);
    CleanTruncates(digits);
    FullCodeUnpadded(DefaultSection, DefaultNumber, digits[..Width]);
    assert DefaultSection + "-" + DefaultNumber + "-F" == "OD-24-F";
    var c := new Controller(RootIndex, true, map[]);
    var shake := c.Input(digits);
    assert shake;
    assert c.clipboard == ["OD-24-F" + digits[..Width]];
    assert c.buffer == [];
  }

  /** Choosing SP and 25 by clicking and typing 9 shows SP-25-F0000009. */
  method ClickThenType() {
    assert Clean("9") == "9" by {
      assert AllDigits("9");
      CleanIdempotent("9");
    }
    assert ResultCode("SP", "25", "9") == "SP-25-F0000009" by {
      var field := PadStart("9", Width, '0');
      assert forall k :: 0 <= k < Width ==> field[k] == "0000009"[k];
      assert field == "0000009";
    }
    var c := new Controller(RootIndex, true, map[]);
    c.ClickSection(1);
    assert c.section == "SP";
    c.ClickNumber(2);
    assert c.number == "25";
    var shake := c.Input("9");
    assert c.buffer == "9";
    assert c.display == "SP-25-F0000009";
    assert c.sectionActive[1] && !c.sectionActive[0];
  }

  /** F2 outside the field: index.js selects SP, src/js/index.js selects OD. */
  method PressF2() {
    var c := new Controller(RootIndex, true, map[]);
    c.KeyDown("F2", false);
    assert c.section == "SP" && c.sectionActive[1] && !c.sectionActive[0];

    var d := new Controller(SrcIndex, true, map[]);
    d.KeyDown("F2", false);
    assert d.section == "OD" && d.sectionActive[0];
  }

  /** Enter copies the shown code and clears; Escape clears without copying;
      neither works when the field is not the target. */
  method EnterAndEscape(digits: string)
    requires AllDigits(digits) && |digits| < Width
  {
    CleanIdempotent(digits);
    var c := new Controller(RootIndex, true, map[]);
    var shake := c.Input(digits);
    var shown := c.display;
    c.KeyDown("Enter", false);
    assert c.buffer == digits && c.clipboard == [];
    c.KeyDown("Enter", true);
    assert c.clipboard == [shown] && c.buffer == [];
    shake := c.Input(digits);
    c.KeyDown("Escape", true);
    assert c.clipboard == [shown] && c.buffer == [];
  }

  /** Toggling stores the theme, a reload brings it back, and a second
      toggle restores the original. */
  method ToggleAndReload(saved: map<string, string>) {
    var c := new Controller(RootIndex, true, saved);
    var before := c.dark;
    c.ToggleTheme();
    var reloaded := new Controller(RootIndex, true, c.storage);
    assert reloaded.dark == c.dark == !before;
    c.ToggleTheme();
    assert c.dark == before;
  }

  /** Without a theme toggle on the page, both scripts ignore the stored
      value: src/js/index.js skips the wiring, and index.js throws at the
      wiring after its other handlers are registered, which keep working. */
  method NoToggle() {
    var c := new Controller(SrcIndex, false, map["darkMode" := "true"]);
    assert !c.dark;
    var d := new Controller(RootIndex, false, map["darkMode" := "true"]);
    assert !d.dark;
    d.ClickSection(2);
    assert d.section == "BN" && !d.dark;
  }
}
