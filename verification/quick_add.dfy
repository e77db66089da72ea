/**
 The home screen's quick-add sheet: the toolbar plus button opens it, and the
 submit action accepts the typed text only when something other than
 horizontal whitespace remains after trimming.
 */
module QuickAdd {

  /** Membership in Foundation's `CharacterSet.whitespaces`: the tab and the
      Unicode space separators (category Zs). Line breaks are not included. */
  predicate IsWhitespace(c: char) {
    var n := c as int;
    n == 0x09 || n == 0x20 || n == 0xA0 || n == 0x1680
    || (0x2000 <= n <= 0x200A) || n == 0x202F || n == 0x205F || n == 0x3000
  }

  predicate AllWhitespace(s: string) {
    forall i :: 0 <= i < |s| ==> IsWhitespace(s[i])
  }

  /** Drops whitespace from the front. */
  function TrimLeading(s: string): (r: string)
    ensures |r| <= |s| && r == s[|s| - |r|..]
    ensures AllWhitespace(s[..|s| - |r|])
    ensures r == [] || !IsWhitespace(r[0])
  {
    if s != [] && IsWhitespace(s[0]) then
      var r := TrimLeading(s[1..]);
      assert s[1..][..|s| - 1 - |r|] == s[1..|s| - |r|];
      r
    else
      s
  }

  /** Drops whitespace from the back. */
  function TrimTrailing(s: string): (r: string)
    ensures |r| <= |s| && r == s[..|r|]
    ensures AllWhitespace(s[|r|..])
    ensures r == [] || !IsWhitespace(r[|r| - 1])
  {
    if s != [] && IsWhitespace(s[|s| - 1]) then
      var r := TrimTrailing(s[..|s| - 1]);
      assert s[|r|..] == s[..|s| - 1][|r|..] + [s[|s| - 1]];
      r
    else
      s
  }

  /** `trimmingCharacters(in: .whitespaces)`: nothing is left exactly when the
      text was all whitespace, and what is left has none at either end. */
  function Trim(s: string): (r: string)
    ensures |r| <= |s|
    ensures r == [] <==> AllWhitespace(s)
    ensures r == [] || (!IsWhitespace(r[0]) && !IsWhitespace(r[|r| - 1]))
  {
    TrimTrailing(TrimLeading(s))
  }

  /** The trimmed text is a piece of the input with only whitespace cut off either side,
      and it neither starts nor ends with whitespace. */
  lemma {:induction false} TrimShape(s: string)
    ensures exists i :: (0 <= i <= |s| - |Trim(s)| && s[i..i + |Trim(s)|] == Trim(s)
      && AllWhitespace(s[..i]) && AllWhitespace(s[i + |Trim(s)|..]))
    ensures Trim(s) == [] || (!IsWhitespace(Trim(s)[0]) && !IsWhitespace(Trim(s)[|Trim(s)| - 1]))
  {
    var l := TrimLeading(s);
    var r := Trim(s);
    var i := |s| - |l|;
    assert s[i..i + |r|] == l[..|r|];
    assert s[i + |r|..] == l[|r|..];
  }

  /** Trimming an already trimmed text changes nothing. */
  lemma TrimIdempotent(s: string)
    ensures Trim(Trim(s)) == Trim(s)
  {
  }

  /** A line break is not whitespace here, so a lone newline survives trimming. */
  lemma NewlineIsKept()
    ensures Trim("\n") == "\n"
  {
  }

  /** Spaces and tabs are trimmed away completely. */
  lemma SpacesAndTabsTrimToEmpty()
    ensures Trim(" \t ") == ""
  {
  }

  /** The home screen's quick-add state. */
  datatype HomeState = HomeState(quickAddText: string, showQuickAdd: bool, isInputFocused: bool)

  /** `addTask()` of the home screen: a submission that is blank after trimming
      leaves everything as it was; otherwise the text is cleared and the sheet
      closes. The text is not stored anywhere. */
  function SubmitQuickAdd(st: HomeState): (r: HomeState)
    ensures AllWhitespace(st.quickAddText) ==> r == st
    ensures !AllWhitespace(st.quickAddText) ==> r.quickAddText == "" && !r.showQuickAdd
    ensures r.isInputFocused == st.isInputFocused
  {
    if Trim(st.quickAddText) != [] then
      st.(quickAddText := "", showQuickAdd := false)
    else
      st
  }

  /** The toolbar plus button opens the sheet and keeps whatever was typed before. */
  function OpenQuickAdd(st: HomeState): (r: HomeState)
    ensures r.showQuickAdd
    ensures r.quickAddText == st.quickAddText && r.isInputFocused == st.isInputFocused
  {
    st.(showQuickAdd := true)
  }

  /** Submitting twice is submitting once: after an accepted submission the text
      is empty, so the second one is refused and changes nothing. */
  lemma SubmitIdempotent(st: HomeState)
    ensures SubmitQuickAdd(SubmitQuickAdd(st)) == SubmitQuickAdd(st)
  {
  }

  /** A blank submission keeps the freshly opened sheet open with its text. */
  lemma BlankSubmissionKeepsSheetOpen(st: HomeState)
    requires AllWhitespace(st.quickAddText)
    ensures SubmitQuickAdd(OpenQuickAdd(st)).showQuickAdd
    ensures SubmitQuickAdd(OpenQuickAdd(st)).quickAddText == st.quickAddText
  {
  }
}
