/** The widget helpers and the validation rules of the registration form:
    `add_attr`, `add_placeholder`, `strong_password`, and the decisions taken
    by `RegisterForm.clean_password`, `RegisterForm.clean_email` and
    `RegisterForm.clean`. A raised `ValidationError` is modelled as a
    returned error value. */
module Forms {
  import opened Strings

  /** A `ValidationError` with its message, code and message parameters. */
  datatype ValidationError = ValidationError(message: string, code: string, params: map<string, string>)

  /** Outcome of a validator that returns nothing or raises. */
  datatype Outcome = Pass | Fail(error: ValidationError)

  /** Outcome of a `clean_<field>` hook: the cleaned value, or an error. */
  datatype Cleaned = Value(value: string) | Rejected(error: ValidationError)

  /** Outcome of the whole-form `clean` hook: nothing, or errors keyed by field. */
  datatype FormOutcome = Passed | FieldErrors(errors: map<string, ValidationError>)

  const WEAK_PASSWORD_MESSAGE := "Password must have at least one uppercase letter, one lowercase letter and one number. The length should be at least 8 characters."
  const FORBIDDEN_WORD := "aten\U{E7}\U{E3}o"
  const FORBIDDEN_MESSAGE := "N\U{E3}o digite %(value)s no campo password"
  const EMAIL_IN_USE_MESSAGE := "User e-mail is already in use"
  const MISMATCH_MESSAGE := "Password and confirmation must be equal"

  // ---------------------------------------------------------------------
  // add_attr / add_placeholder

  /** A form widget; `attrs` holds its HTML attributes. */
  class Widget {
    var attrs: map<string, string>

    constructor (attrs: map<string, string>)
      ensures this.attrs == attrs
    {
      this.attrs := attrs;
    }
  }

  /** A form field and the widget that renders it. */
  class Field {
    const widget: Widget

    constructor (widget: Widget)
      ensures this.widget == widget
    {
      this.widget := widget;
    }
  }

  /** `attrs.get(name, '')`. */
  function AttrOrEmpty(attrs: map<string, string>, name: string): string {
    if name in attrs then attrs[name] else ""
  }

  /** The attribute map after `add_attr`: `name` is set to the old value
      and the new one joined by a space and stripped; nothing else moves. */
  function WithAttr(attrs: map<string, string>, name: string, newVal: string): (r: map<string, string>)
    ensures r.Keys == attrs.Keys + {name}
    ensures forall k :: k in attrs && k != name ==> r[k] == attrs[k]
    ensures Trimmed(r[name])
  {
    var joined := Strip(AttrOrEmpty(attrs, name) + " " + newVal);
    attrs[name := joined]
  }

  /** `add_attr(field, attr_name, attr_new_val)`: updates the field's widget
      attributes in place. */
  method AddAttr(field: Field, attrName: string, attrNewVal: string)
    modifies field.widget
    ensures field.widget.attrs == WithAttr(old(field.widget.attrs), attrName, attrNewVal)
  {
    var existing := AttrOrEmpty(field.widget.attrs, attrName);
    field.widget.attrs := field.widget.attrs[attrName := Strip(existing + " " + attrNewVal)];
  }

  /** `add_placeholder(field, placeholder_val)`. */
  method AddPlaceholder(field: Field, placeholderVal: string)
    modifies field.widget
    ensures field.widget.attrs == WithAttr(old(field.widget.attrs), "placeholder", placeholderVal)
  {
    AddAttr(field, "placeholder", placeholderVal);
  }

  /** With no previous value (absent, or the empty string) the attribute
      becomes the new value stripped. */
  lemma WithAttrWhenAbsent(attrs: map<string, string>, name: string, newVal: string)
    requires AttrOrEmpty(attrs, name) == ""
    ensures WithAttr(attrs, name, newVal)[name] == Strip(newVal)
  {
    assert "" + " " + newVal == " " + newVal;
    StripIgnoresLeadingSpace(" ", newVal);
  }

  /** A previous value with no whitespace at its ends is kept, and the new
      value is appended after a single space. */
  lemma WithAttrAppends(attrs: map<string, string>, name: string, newVal: string)
    requires name in attrs && attrs[name] != "" && Trimmed(attrs[name])
    requires newVal != "" && Trimmed(newVal)
    ensures WithAttr(attrs, name, newVal)[name] == attrs[name] + " " + newVal
  {
    var joined := attrs[name] + " " + newVal;
    assert joined[0] == attrs[name][0];
    assert joined[|joined| - 1] == newVal[|newVal| - 1];
    StripTrimmed(joined);
  }

  /** Two `add_attr` calls on an attribute the widget did not have leave the
      two values joined by a space. */
  lemma WithAttrTwice(attrs: map<string, string>, name: string, first: string, second: string)
    requires name !in attrs
    requires first != "" && Trimmed(first) && second != "" && Trimmed(second)
    ensures WithAttr(WithAttr(attrs, name, first), name, second)[name] == first + " " + second
  {
    WithAttrWhenAbsent(attrs, name, first);
    StripTrimmed(first);
    WithAttrAppends(WithAttr(attrs, name, first), name, second);
  }

  // ---------------------------------------------------------------------
  // strong_password

  /** The three character classes of the password pattern. */
  datatype CharClass = Lowercase | Uppercase | Digit

  predicate InClass(c: char, k: CharClass) {
    match k
    case Lowercase => 'a' <= c <= 'z'
    case Uppercase => 'A' <= c <= 'Z'
    case Digit => '0' <= c <= '9'
  }

  /** Some character of `s` is in class `k`. */
  function HasClass(s: string, k: CharClass): (r: bool)
    ensures r <==> exists i :: 0 <= i < |s| && InClass(s[i], k)
    decreases |s|
  {
    if s == [] then false
    else if InClass(s[0], k) then true
    else
      assert forall i :: 1 <= i < |s| ==> s[1..][i - 1] == s[i];
      HasClass(s[1..], k)
  }

  /** Index of the first line break of `s`, or `|s|` if there is none. */
  function LineEnd(s: string): (k: nat)
    ensures k <= |s| && (k < |s| ==> s[k] == '\n')
    ensures forall i :: 0 <= i < k ==> s[i] != '\n'
    decreases |s|
  {
    if s == [] || s[0] == '\n' then 0
    else
      var k := LineEnd(s[1..]);
      assert forall i :: 1 <= i < k + 1 ==> s[i] == s[1..][i - 1];
      k + 1
  }

  /** No line break among the first `j` characters of `s`. */
  ghost predicate NoBreakBefore(s: string, j: int) {
    j <= |s| && forall i :: 0 <= i < j ==> s[i] != '\n'
  }

  /** The lookahead `(?=.*[class])` at the start of `s`: some character of
      the class is reached without crossing a line break. */
  ghost predicate LookaheadFinds(s: string, k: CharClass) {
    exists j :: 0 <= j < |s| && NoBreakBefore(s, j) && InClass(s[j], k)
  }

  /** `$` without MULTILINE at position `e`: the end of `s`, or just before
      a line break that ends `s`. */
  ghost predicate EndAnchorAt(s: string, e: int) {
    e == |s| || (0 <= e == |s| - 1 && s[e] == '\n')
  }

  /** `re.match(r'^(?=.*[a-z])(?=.*[A-Z])(?=.*[0-9]).{8,}$', s)` succeeds:
      the three lookaheads hold and at least eight non-break characters
      lead up to a `$` position. */
  ghost predicate PatternMatches(s: string) {
    LookaheadFinds(s, Lowercase) && LookaheadFinds(s, Uppercase) && LookaheadFinds(s, Digit)
    && exists e :: 8 <= e <= |s| && NoBreakBefore(s, e) && EndAnchorAt(s, e)
  }

  /** `strong_password(password)`: the first line must be at least eight
      characters long, be all of `password` but for at most one final line
      break, and contain a lowercase letter, an uppercase letter and a digit. */
  function StrongPassword(password: string): (r: Outcome)
    ensures r.Fail? ==> r.error == ValidationError(WEAK_PASSWORD_MESSAGE, "invalid", map[])
    ensures '\n' !in password ==>
              (r.Pass? <==> |password| >= 8 && HasClass(password, Lowercase)
                            && HasClass(password, Uppercase) && HasClass(password, Digit))
  {
    var k := LineEnd(password);
    var line := password[..k];
    assert '\n' !in password ==> k == |password| && line == password;
    if 8 <= k && k >= |password| - 1
       && HasClass(line, Lowercase) && HasClass(line, Uppercase) && HasClass(line, Digit)
    then Pass
    else Fail(ValidationError(WEAK_PASSWORD_MESSAGE, "invalid", map[]))
  }

  /** A class is found on the first line exactly when the lookahead finds it. */
  lemma FirstLineHasClass(s: string, k: CharClass)
    ensures HasClass(s[..LineEnd(s)], k) <==> LookaheadFinds(s, k)
  {
    var n := LineEnd(s);
    if LookaheadFinds(s, k) {
      var j :| 0 <= j < |s| && NoBreakBefore(s, j) && InClass(s[j], k);
      assert s[..n][j] == s[j];
    }
    if HasClass(s[..n], k) {
      var j :| 0 <= j < n && InClass(s[..n][j], k);
      assert NoBreakBefore(s, j);
    }
  }

  /** `StrongPassword` accepts exactly the strings the pattern matches. */
  lemma StrongPasswordMatchesPattern(password: string)
    ensures StrongPassword(password).Pass? <==> PatternMatches(password)
  {
    var n := LineEnd(password);
    FirstLineHasClass(password, Lowercase);
    FirstLineHasClass(password, Uppercase);
    FirstLineHasClass(password, Digit);
    if 8 <= n && n >= |password| - 1 {
      assert NoBreakBefore(password, n) && EndAnchorAt(password, n);
    }
    if exists e :: 8 <= e <= |password| && NoBreakBefore(password, e) && EndAnchorAt(password, e) {
      var e :| 8 <= e <= |password| && NoBreakBefore(password, e) && EndAnchorAt(password, e);
      if e < |password| {
        assert password[e] == '\n';
      }
      if n < e {
        assert password[n] == '\n';
      }
      assert 8 <= n && n >= |password| - 1;
    }
  }

  // ---------------------------------------------------------------------
  // RegisterForm.clean_password, clean_email, clean

  /** `clean_password`: the password is kept unless it contains the
      forbidden word. */
  function CleanPassword(data: string): (r: Cleaned)
    ensures r.Value? <==> !exists i :: OccursAt(data, FORBIDDEN_WORD, i)
    ensures r.Value? ==> r.value == data
    ensures r.Rejected? ==>
              r.error == ValidationError(FORBIDDEN_MESSAGE, "invalid", map["value" := FORBIDDEN_WORD])
  {
    if Contains(data, FORBIDDEN_WORD) then
      Rejected(ValidationError(FORBIDDEN_MESSAGE, "invalid", map["value" := FORBIDDEN_WORD]))
    else
      Value(data)
  }

  /** Whatever surrounds the forbidden word, the password is rejected. */
  lemma CleanPasswordRejectsForbiddenWord(before: string, after: string)
    ensures CleanPassword(before + FORBIDDEN_WORD + after).Rejected?
  {
    ContainsInfix(before, FORBIDDEN_WORD, after);
  }

  /** `cleaned_data.get(key)`: `None` when the field did not validate. */
  datatype FieldValue = Absent | Present(text: string)

  function Get(cleanedData: map<string, string>, key: string): FieldValue {
    if key in cleanedData then Present(cleanedData[key]) else Absent
  }

  /** `clean_email`: the e-mail (default `''`) is kept unless an account
      already uses it; `registered` stands for the e-mails in the user table. */
  function CleanEmail(cleanedData: map<string, string>, registered: set<string>): (r: Cleaned)
    ensures var email := if "email" in cleanedData then cleanedData["email"] else "";
            (r.Value? <==> email !in registered) && (r.Value? ==> r.value == email)
    ensures r.Rejected? ==> r.error == ValidationError(EMAIL_IN_USE_MESSAGE, "invalid", map[])
  {
    var email := if "email" in cleanedData then cleanedData["email"] else "";
    if email in registered then
      Rejected(ValidationError(EMAIL_IN_USE_MESSAGE, "invalid", map[]))
    else
      Value(email)
  }

  /** `clean`: one and the same mismatch error is attached to both
      `password` and `password2` exactly when the two cleaned values differ
      (a value missing from the cleaned data counts as `None`). */
  function Clean(cleanedData: map<string, string>): (r: FormOutcome)
    ensures r.FieldErrors? <==> Get(cleanedData, "password") != Get(cleanedData, "password2")
    ensures r.FieldErrors? ==>
              r.errors.Keys == {"password", "password2"}
              && r.errors["password"] == r.errors["password2"]
                 == ValidationError(MISMATCH_MESSAGE, "invalid", map[])
  {
    if Get(cleanedData, "password") != Get(cleanedData, "password2") then
      var mismatch := ValidationError(MISMATCH_MESSAGE, "invalid", map[]);
      FieldErrors(map["password" := mismatch, "password2" := mismatch])
    else
      Passed
  }

  /** The check is symmetric: swapping the two password values does not
      change the outcome. */
  lemma CleanSymmetric(cleanedData: map<string, string>, p1: string, p2: string)
    ensures Clean(cleanedData["password" := p1]["password2" := p2])
            == Clean(cleanedData["password" := p2]["password2" := p1])
  {
  }

  /** When one password field failed its own validation (so it is missing
      from the cleaned data) and the other is present, `clean` reports a
      mismatch too. */
  lemma CleanReportsMissingPassword(cleanedData: map<string, string>)
    requires "password" !in cleanedData && "password2" in cleanedData
    ensures Clean(cleanedData).FieldErrors?
  {
  }
}
