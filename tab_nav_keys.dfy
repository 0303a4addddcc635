/** The project detail screen's tab shortcuts (src/hooks/useTabNavKeys.ts):
    Cmd/Ctrl+Enter starts triage, Cmd/Ctrl+1..9 switches to the tab at that
    position. The listener's environment (the current view, whether an
    input has the focus, whether a dialog is open) is given as flags. */
module TabNavKeys {
  import opened Optional
  import opened Text

  datatype NavTab = NavTab(id: string, tabLabel: string)

  datatype TabNavAction = Nothing | StartTriage | SwitchTab(tabId: string)

  /** The white space `parseInt` skips before the number. */
  predicate IsJsWhitespace(c: char) {
    var n := c as int;
    (0x09 <= n <= 0x0D) || n == 0x20 || n == 0xA0 || n == 0x1680 || (0x2000 <= n <= 0x200A) ||
    n == 0x2028 || n == 0x2029 || n == 0x202F || n == 0x205F || n == 0x3000 || n == 0xFEFF
  }

  /** The longest run of digits at the start of `s`. */
  function DigitPrefix(s: string): (d: string)
    ensures d <= s && forall i :: 0 <= i < |d| ==> IsDigit(d[i])
    ensures |d| < |s| ==> !IsDigit(s[|d|])
  {
    if s == [] || !IsDigit(s[0]) then [] else [s[0]] + DigitPrefix(s[1..])
  }

  /** `s` without its leading JavaScript white space. */
  function SkipJsWhitespace(s: string): (r: string)
    ensures |r| <= |s| && r == s[|s| - |r|..]
    ensures r == [] || !IsJsWhitespace(r[0])
    ensures forall i :: 0 <= i < |s| - |r| ==> IsJsWhitespace(s[i])
  {
    if s != [] && IsJsWhitespace(s[0]) then SkipJsWhitespace(s[1..]) else s
  }

  /** `parseInt(s, 10)`, with `None` for `NaN`: leading white space, an
      optional sign, then at least one digit; whatever follows the digits is
      ignored. */
  function ParseInt(s: string): (n: Option<int>)
  {
    if s != [] && IsJsWhitespace(s[0]) then ParseInt(s[1..])
    else
      var negative := s != [] && s[0] == '-';
      var body := if s != [] && (s[0] == '-' || s[0] == '+') then s[1..] else s;
      var digits := DigitPrefix(body);
      if digits == [] then None
      else if negative then Some(-(DecimalValue(digits) as int))
      else Some(DecimalValue(digits))
  }

  /** `parseInt` skips the leading white space and reads one optional sign:
      it is a number exactly when a digit follows, and the number is the
      value of the digits that follow, negated after `-`. */
  lemma {:induction false} ParseIntSpec(s: string)
    ensures var t := SkipJsWhitespace(s);
      var signed := t != [] && (t[0] == '-' || t[0] == '+');
      var body := if signed then t[1..] else t;
      && (ParseInt(s).Some? <==> body != [] && IsDigit(body[0]))
      && (ParseInt(s).Some? && t[0] == '-' ==> ParseInt(s).value == -(DecimalValue(DigitPrefix(body)) as int))
      && (ParseInt(s).Some? && t[0] != '-' ==> ParseInt(s).value == DecimalValue(DigitPrefix(body)))
  {
    if s != [] && IsJsWhitespace(s[0]) {
      ParseIntSpec(s[1..]);
    }
  }

  /** A key that starts with something other than white space, a sign or a
      digit is not a number. */
  lemma NonNumericKey(key: string)
    requires key != [] && !IsJsWhitespace(key[0]) && key[0] != '-' && key[0] != '+' && !IsDigit(key[0])
    ensures ParseInt(key) == None
  {
  }

  /** A single digit key reads as its digit. */
  lemma DigitKey(d: nat)
    requires d < 10
    ensures ParseInt([DigitChar(d)]) == Some(d)
  {
    var s := [DigitChar(d)];
    assert s[1..] == [] && s[..|s| - 1] == [];
    assert DigitPrefix(s) == s;
    assert DecimalValue(s) == d;
  }

  /** `handleKeyDown`'s decision for one key press. */
  function Decide(active: bool, typing: bool, dialogOpen: bool, meta: bool, ctrl: bool, key: string,
                  canStartTriage: bool, hasStartTriage: bool, tabs: seq<NavTab>): (a: TabNavAction)
    ensures !active || typing || dialogOpen || !(meta || ctrl) ==> a == Nothing
    ensures a == StartTriage <==>
      active && !typing && !dialogOpen && (meta || ctrl) && key == "Enter" && canStartTriage && hasStartTriage
    ensures a.SwitchTab? ==>
      (&& ParseInt(key).Some? && 1 <= ParseInt(key).value <= 9
       && ParseInt(key).value - 1 < |tabs| && a.tabId == tabs[ParseInt(key).value - 1].id)
  {
    if !active || typing || dialogOpen then Nothing
    else if !(meta || ctrl) then Nothing
    else if key == "Enter" && canStartTriage && hasStartTriage then StartTriage
    else match ParseInt(key)
      case None => Nothing
      case Some(keyNum) =>
        if keyNum < 1 || keyNum > 9 then Nothing
        else
          var tabIndex := keyNum - 1;
          if tabIndex < |tabs| then SwitchTab(tabs[tabIndex].id) else Nothing
  }

  /** Cmd/Ctrl with digit k in 1..9 switches to the k-th tab exactly when
      there is one; 0 does nothing. */
  lemma DigitSelectsTab(k: nat, meta: bool, ctrl: bool, canStartTriage: bool, hasStartTriage: bool, tabs: seq<NavTab>)
    requires k < 10 && (meta || ctrl)
    ensures var a := Decide(true, false, false, meta, ctrl, [DigitChar(k)], canStartTriage, hasStartTriage, tabs);
      (k == 0 ==> a == Nothing) &&
      (1 <= k && k - 1 < |tabs| ==> a == SwitchTab(tabs[k - 1].id)) &&
      (1 <= k && k - 1 >= |tabs| ==> a == Nothing)
  {
    DigitKey(k);
  }

  /** Enter without a triage to start falls through to the digit test and does nothing. */
  lemma EnterWithoutTriage(meta: bool, ctrl: bool, hasStartTriage: bool, tabs: seq<NavTab>)
    ensures Decide(true, false, false, meta, ctrl, "Enter", false, hasStartTriage, tabs) == Nothing
  {
    NonNumericKey("Enter");
  }
}
