/** The login page object: the error text of a failed login, the user name shown
    after a successful one, and the checks over them. */
module LoginPage {
  import opened Outcomes
  import opened Text
  import opened Dom

  /** What the login page's locators return at the moment the page object reads
      them. Each text is that of an element that is present; None is a null text. */
  datatype LoginView = LoginView(
    errorVisible: bool,              // `p[style*="color: red"]` is visible
    errorText: Option<string>,       // its text
    loggedInVisible: bool,           // `text=Logged in as` is visible
    loggedInText: Option<string>)    // its text

  /** The label in front of the user name in the header. */
  const LoggedInLabel := "Logged in as "

  /** `getErrorMessage`: the error text, "" for a null or empty text. */
  function GetErrorMessage(v: LoginView): (message: string)
    ensures v.errorText.None? ==> message == ""
    ensures v.errorText.Some? ==> message == v.errorText.value
  {
    TextOr(v.errorText, "")
  }

  /** `getLoggedInUsername`: the header text with the first occurrence of the
      label removed, then trimmed; the text trimmed when it has no label; "" for
      a null text. */
  function GetLoggedInUsername(v: LoginView): (username: string)
    ensures v.loggedInText.None? ==> username == ""
    ensures v.loggedInText.Some? && !Contains(v.loggedInText.value, LoggedInLabel) ==>
      username == Trim(v.loggedInText.value)
    ensures v.loggedInText.Some? ==> forall i :: FirstOccursAt(v.loggedInText.value, LoggedInLabel, i) ==>
      username == Trim(v.loggedInText.value[..i] + v.loggedInText.value[i + |LoggedInLabel|..])
    ensures IsTrimmed(username)
  {
    match v.loggedInText
    case None => ""
    case Some(t) => TextOr(Some(Trim(RemoveFirst(t, LoggedInLabel))), "")
  }

  /** Removing a marker at the start of a text and trimming gives back what
      follows the marker, when that has no whitespace at either end. */
  lemma AfterLabel(marker: string, rest: string)
    requires IsTrimmed(rest)
    ensures Trim(RemoveFirst(marker + rest, marker)) == rest
  {
    RemoveFirstAtStart(marker, rest);
    TrimOfTrimmed(rest);
  }

  /** Round trip: the header "Logged in as " + u gives back u, for any u without
      whitespace at either end. */
  lemma UsernameOfLabelled(v: LoginView, u: string)
    requires v.loggedInText == Some(LoggedInLabel + u) && IsTrimmed(u)
    ensures GetLoggedInUsername(v) == u
  {
    AfterLabel(LoggedInLabel, u);
  }

  /** Only the first occurrence of the label is removed: a name that itself
      starts with the label keeps it. */
  lemma UsernameRemovesFirstLabelOnly(v: LoginView, u: string)
    requires v.loggedInText == Some(LoggedInLabel + LoggedInLabel + u) && IsTrimmed(u) && u != []
    ensures GetLoggedInUsername(v) == LoggedInLabel + u
  {
    var rest := LoggedInLabel + u;
    assert LoggedInLabel + LoggedInLabel + u == LoggedInLabel + rest;
    assert !IsSpace(LoggedInLabel[0]);
    TrimmedAfterPrefix(LoggedInLabel, u);
    AfterLabel(LoggedInLabel, rest);
  }

  /** A text that starts with a non-whitespace character and ends with a
      non-empty trimmed string has no whitespace at either end. */
  lemma TrimmedAfterPrefix(prefix: string, u: string)
    requires prefix != [] && !IsSpace(prefix[0]) && IsTrimmed(u) && u != []
    ensures IsTrimmed(prefix + u)
  {
    var s := prefix + u;
    assert s[0] == prefix[0];
    assert s[|s| - 1] == u[|u| - 1];
  }

  /** Whitespace around the header text, as the page lays it out, does not
      reach the name. */
  lemma UsernameOfPadded(v: LoginView, a: string, u: string, b: string)
    requires v.loggedInText == Some(a + LoggedInLabel + u + b)
    requires AllSpace(a) && AllSpace(b) && IsTrimmed(u) && u != []
    ensures GetLoggedInUsername(v) == u
  {
    var s := a + LoggedInLabel + u + b;
    assert OccursAt(s, LoggedInLabel, |a|) by {
      assert s[|a|..|a| + |LoggedInLabel|] == LoggedInLabel;
    }
    forall j | 0 <= j < |a| ensures !OccursAt(s, LoggedInLabel, j) {
      assert s[j] == a[j];
      LabelNotAtSpace(s, j);
    }
    assert IndexOf(s, LoggedInLabel) == Some(|a|) by {
      var r := IndexOf(s, LoggedInLabel);
      assert r.Some? && r.value <= |a|;
    }
    assert RemoveFirst(s, LoggedInLabel) == a + u + b by {
      assert s[..|a|] == a;
      assert s[|a| + |LoggedInLabel|..] == u + b;
    }
    TrimOfPadded(a, u, b);
  }

  /** The label starts with a letter, so it does not occur at a whitespace character. */
  lemma LabelNotAtSpace(s: string, j: nat)
    requires j < |s| && IsSpace(s[j])
    ensures !OccursAt(s, LoggedInLabel, j)
  {
    if j + |LoggedInLabel| <= |s| {
      assert s[j..j + |LoggedInLabel|][0] == s[j];
    }
  }

  /** `verifyErrorMessage`: the error is visible and its text contains the
      expected text. */
  function VerifyErrorMessage(v: LoginView, expectedText: string): (c: Check)
    ensures c == Pass <==> v.errorVisible && Contains(GetErrorMessage(v), expectedText)
    ensures c != Pass ==> c == Fail(AssertionFailed)
  {
    if !v.errorVisible then Fail(AssertionFailed)
    else if Contains(GetErrorMessage(v), expectedText) then Pass
    else Fail(AssertionFailed)
  }

  /** `verifySuccessfulLogin`: the header is visible and, when a non-empty
      expected name is given, the extracted name equals it exactly; an absent or
      empty expected name checks visibility only. */
  function VerifySuccessfulLogin(v: LoginView, expectedUsername: Option<string>): (c: Check)
    ensures c == Pass <==>
      v.loggedInVisible &&
      (expectedUsername.Some? && expectedUsername.value != "" ==> GetLoggedInUsername(v) == expectedUsername.value)
    ensures c != Pass ==> c == Fail(AssertionFailed)
  {
    if !v.loggedInVisible then Fail(AssertionFailed)
    else if expectedUsername.Some? && expectedUsername.value != "" then
      if GetLoggedInUsername(v) == expectedUsername.value then Pass else Fail(AssertionFailed)
    else Pass
  }

  /** A visible header that shows the expected name after the label passes, and
      one that shows another name fails. */
  lemma SuccessfulLoginOfLabelled(v: LoginView, shown: string, expected: string)
    requires v.loggedInVisible && IsTrimmed(shown) && expected != ""
    requires v.loggedInText == Some(LoggedInLabel + shown)
    ensures VerifySuccessfulLogin(v, Some(expected)) == Pass <==> shown == expected
  {
    UsernameOfLabelled(v, shown);
  }
}
