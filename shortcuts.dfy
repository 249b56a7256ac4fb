/** The function-key layer of the global `keydown` listener, in the two forms
    the two scripts give it. Keys are `KeyboardEvent.key` strings; a result
    names the value of the button whose `click()` the listener calls. */
module Shortcuts {
  import opened Options

  /** The `data-section` and `data-number` values of the two button groups,
      in the order the keys address them. */
  const SectionValues: seq<string> := ["OD", "SP", "BN", "TP"]
  const NumberValues: seq<string> := ["23", "24", "25", "26"]

  /** No two buttons of a group carry the same value. */
  lemma ValuesDistinct()
    ensures forall a, b :: 0 <= a < b < |SectionValues| ==> SectionValues[a] != SectionValues[b]
    ensures forall a, b :: 0 <= a < b < |NumberValues| ==> NumberValues[a] != NumberValues[b]
  {
    assert forall a :: 0 <= a < |SectionValues| ==> SectionValues[a][0] == "OSBT"[a];
    assert forall a :: 0 <= a < |NumberValues| ==> NumberValues[a][1] == "3456"[a];
  }

  const SectionKeys: seq<string> := ["F1", "F2", "F3", "F4"]
  const NumberKeys: seq<string> := ["F5", "F6", "F7", "F8"]

  /** A button a function key clicks. */
  datatype Pick = PickSection(section: string) | PickNumber(number: string)

  /** The single if/else-if chain of index.js: each of F1..F8 clicks its own button. */
  function RootShortcut(key: string): (r: Option<Pick>)
    ensures r.Some? <==> key in SectionKeys || key in NumberKeys
    ensures forall i :: 0 <= i < |SectionKeys| ==>
              (key == SectionKeys[i] <==> r == Some(PickSection(SectionValues[i])))
    ensures forall i :: 0 <= i < |NumberKeys| ==>
              (key == NumberKeys[i] <==> r == Some(PickNumber(NumberValues[i])))
  {
    if key == "F1" then Some(PickSection("OD"))
    else if key == "F2" then Some(PickSection("SP"))
    else if key == "F3" then Some(PickSection("BN"))
    else if key == "F4" then Some(PickSection("TP"))
    else if key == "F5" then Some(PickNumber("23"))
    else if key == "F6" then Some(PickNumber("24"))
    else if key == "F7" then Some(PickNumber("25"))
    else if key == "F8" then Some(PickNumber("26"))
    else None
  }

  /** The section chain of src/js/index.js, as written: the membership test
      comes first, so the F2, F3 and F4 branches behind it never run. */
  function SrcSectionShortcut(key: string): (r: Option<string>)
    ensures r.Some? <==> key in SectionKeys
    ensures r.Some? ==> r.value == "OD"
  {
    if key in ["F1", "F2", "F3", "F4"] then Some("OD")
    else if key == "F2" then Some("SP")
    else if key == "F3" then Some("BN")
    else if key == "F4" then Some("TP")
    else None
  }

  /** The number chain of src/js/index.js, as written: every one of F5..F8
      clicks the "23" button. */
  function SrcNumberShortcut(key: string): (r: Option<string>)
    ensures r.Some? <==> key in NumberKeys
    ensures r.Some? ==> r.value == "23"
  {
    if key in ["F5", "F6", "F7", "F8"] then Some("23")
    else if key == "F6" then Some("24")
    else if key == "F7" then Some("25")
    else if key == "F8" then Some("26")
    else None
  }

  /** The two forms agree on a section key only for F1, and on a number key
      only for F5. */
  lemma SrcAgreesOnlyOnFirstKeys(key: string)
    ensures key in SectionKeys ==>
              (SrcSectionShortcut(key) == Some(RootShortcut(key).value.section) <==> key == "F1")
    ensures key in NumberKeys ==>
              (SrcNumberShortcut(key) == Some(RootShortcut(key).value.number) <==> key == "F5")
  {
  }

  /** F2 shows the difference: index.js selects SP, src/js/index.js selects OD. */
  lemma SrcF2SelectsOD()
    ensures SrcSectionShortcut("F2") == Some("OD")
    ensures RootShortcut("F2") == Some(PickSection("SP"))
  {
  }
}
