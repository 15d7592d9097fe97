/**
  The request-body schemas: the user-creation schema with its email and
  password rules, the ticket-creation schema and the ticket-update schema.
  The schema library rejects keys a schema does not declare and stops at the
  first failing key, in declaration order.
*/
module Validators {
  import opened Wrappers
  import opened JsValues

  /**
    Why a body was rejected. `Custom` is a rule whose error was replaced by a
    fixed message; `NotAllowed` carries every undeclared key of the body.
  */
  datatype SchemaError =
    | Required(name: string)
    | NotAString(name: string)
    | EmptyString(name: string)
    | NotAllowed(keys: set<string>)
    | Custom(message: string)

  const PasswordMessage :=
    "Password should contain a minimum of 8 characters (upper and lowercase letters, numbers and at least one special character)"
  const CreateUserEmailMessage := "Email  not valid"
  const UpdateTicketEmailMessage := "Email not valid"
  const IsFixedMessage := "isFixed is missing"

  /** The punctuation the password pattern accepts as a special character. */
  const Specials := "!_`,/@#-\"=:;~<>'$%^&*?|+()[]{}."

  predicate IsLower(c: char) { 'a' <= c <= 'z' }
  predicate IsUpper(c: char) { 'A' <= c <= 'Z' }
  predicate IsSpecial(c: char) { c in Specials }

  /** The characters a regular-expression `.` does not match. */
  predicate IsLineTerminator(c: char) {
    c == '\n' || c == '\r' || c == '\U{2028}' || c == '\U{2029}'
  }

  /** The length of the first line of `s`: the prefix a `.*` at the start can reach. */
  function LineEnd(s: string): (n: nat)
    ensures n <= |s|
    ensures forall j :: 0 <= j < n ==> !IsLineTerminator(s[j])
    ensures n < |s| ==> IsLineTerminator(s[n])
  {
    if |s| == 0 || IsLineTerminator(s[0]) then 0 else 1 + LineEnd(s[1..])
  }

  /** Some character of `s[..n]` satisfies `p`. */
  predicate Has(s: string, n: nat, p: char -> bool)
    requires n <= |s|
  {
    exists j :: 0 <= j < n && p(s[j])
  }

  /** Extending the prefix by one character adds exactly that character's test. */
  lemma HasStep(s: string, n: nat, p: char -> bool)
    requires n < |s|
    ensures Has(s, n + 1, p) <==> Has(s, n, p) || p(s[n])
  {
    if Has(s, n + 1, p) && !p(s[n]) {
      var j :| 0 <= j < n + 1 && p(s[j]);
      assert j < n;
    }
  }

  /**
    How many UTF-16 code units a character takes: the pattern has no `u`
    flag, so a `.` matches one code unit and a character beyond the Basic
    Multilingual Plane counts as two.
  */
  function Units(c: char): nat {
    if c as int > 0xFFFF then 2 else 1
  }

  /** The length of `s` in UTF-16 code units. */
  function Utf16Length(s: string): (n: nat)
    ensures |s| <= n <= 2 * |s|
  {
    if |s| == 0 then 0 else Utf16Length(s[..|s| - 1]) + Units(s[|s| - 1])
  }

  /** Extending a prefix by one character adds that character's code units. */
  lemma Utf16Step(s: string, i: nat)
    requires i < |s|
    ensures Utf16Length(s[..i + 1]) == Utf16Length(s[..i]) + Units(s[i])
  {
    assert s[..i + 1][..i] == s[..i];
  }

  /** A password that passes the pattern is not empty. */
  lemma PatternNonEmpty(s: string)
    requires PasswordPattern(s)
    ensures s != ""
  {
  }

  /** A string without characters beyond the Basic Multilingual Plane is as long in code units as in characters. */
  lemma {:induction false} BmpLength(s: string)
    requires forall i :: 0 <= i < |s| ==> s[i] as int <= 0xFFFF
    ensures Utf16Length(s) == |s|
  {
    if |s| > 0 {
      BmpLength(s[..|s| - 1]);
    }
  }

  /**
    The password pattern: every look-ahead starts at the beginning of the
    string and cannot cross a line break, so the first line must be at least
    8 code units long and hold a lower-case letter, an upper-case letter, a
    digit and a special character.
  */
  predicate PasswordPattern(s: string) {
    var n := LineEnd(s);
    && Utf16Length(s[..n]) >= 8
    && Has(s, n, IsLower)
    && Has(s, n, IsUpper)
    && Has(s, n, IsDigit)
    && Has(s, n, IsSpecial)
  }

  /** Decides the password pattern in one left-to-right pass over the first line. */
  method ScanPassword(s: string) returns (ok: bool)
    ensures ok <==> PasswordPattern(s)
  {
    var lower, upper, digit, special := false, false, false, false;
    var units := 0;
    var i := 0;
    while i < |s| && !IsLineTerminator(s[i])
      invariant 0 <= i <= LineEnd(s)
      invariant units == Utf16Length(s[..i])
      invariant lower == Has(s, i, IsLower)
      invariant upper == Has(s, i, IsUpper)
      invariant digit == Has(s, i, IsDigit)
      invariant special == Has(s, i, IsSpecial)
    {
      HasStep(s, i, IsLower);
      HasStep(s, i, IsUpper);
      HasStep(s, i, IsDigit);
      HasStep(s, i, IsSpecial);
      Utf16Step(s, i);
      lower := lower || IsLower(s[i]);
      upper := upper || IsUpper(s[i]);
      digit := digit || IsDigit(s[i]);
      special := special || IsSpecial(s[i]);
      units := units + Units(s[i]);
      i := i + 1;
    }
    assert i == LineEnd(s);
    ok := units >= 8 && lower && upper && digit && special;
  }

  /**
    The characters `String.prototype.trim` removes: the white-space
    characters and the line terminators of the ECMAScript grammar.
  */
  predicate IsTrimmed(c: char) {
    || c == '\t' || c == '\U{000B}' || c == '\U{000C}' || c == ' ' || c == '\U{00A0}' || c == '\U{FEFF}'
    || c == '\U{1680}' || '\U{2000}' <= c <= '\U{200A}' || c == '\U{202F}' || c == '\U{205F}' || c == '\U{3000}'
    || IsLineTerminator(c)
  }

  /** `s` without its leading white space. */
  function TrimStart(s: string): (r: string)
    ensures |r| <= |s| && r == s[|s| - |r|..]
    ensures forall i :: 0 <= i < |s| - |r| ==> IsTrimmed(s[i])
    ensures |r| > 0 ==> !IsTrimmed(r[0])
  {
    if |s| > 0 && IsTrimmed(s[0]) then TrimStart(s[1..]) else s
  }

  /** `s` without its trailing white space. */
  function TrimEnd(s: string): (r: string)
    ensures |r| <= |s| && r == s[..|r|]
    ensures forall i :: |r| <= i < |s| ==> IsTrimmed(s[i])
    ensures |r| > 0 ==> !IsTrimmed(r[|r| - 1])
  {
    if |s| > 0 && IsTrimmed(s[|s| - 1]) then TrimEnd(s[..|s| - 1]) else s
  }

  /** `String.prototype.trim`, which the schema applies before the pattern. */
  function Trim(s: string): (r: string)
    ensures |r| <= |s|
    ensures |r| > 0 ==> !IsTrimmed(r[0]) && !IsTrimmed(r[|r| - 1])
    ensures var a := |s| - |TrimStart(s)|;
      && a + |r| <= |s| && r == s[a..a + |r|]
      && (forall i :: 0 <= i < a ==> IsTrimmed(s[i]))
      && (forall i :: a + |r| <= i < |s| ==> IsTrimmed(s[i]))
  {
    var start := TrimStart(s);
    var r := TrimEnd(start);
    InfixOfSuffix(s, start, r, IsTrimmed);
    assert |r| > 0 ==> r[0] == start[0];
    r
  }

  /** A prefix `r` of a suffix `start` of `s` is an infix of `s`, and what follows it in `s` is what follows it in `start`. */
  lemma InfixOfSuffix(s: string, start: string, r: string, p: char -> bool)
    requires |start| <= |s| && start == s[|s| - |start|..]
    requires |r| <= |start| && r == start[..|r|]
    requires forall i :: |r| <= i < |start| ==> p(start[i])
    ensures var a := |s| - |start|;
      && a + |r| <= |s| && r == s[a..a + |r|]
      && (forall i :: a + |r| <= i < |s| ==> p(s[i]))
  {
    var a := |s| - |start|;
    assert r == s[a..a + |r|];
    forall i | a + |r| <= i < |s|
      ensures p(s[i])
    {
      assert s[i] == start[i - a];
    }
  }

  /** The position of the last `c` in `s`. */
  function LastIndexOf(s: string, c: char): (r: Option<nat>)
    ensures r.Some? ==> r.value < |s| && s[r.value] == c
    ensures r.Some? ==> forall j :: r.value < j < |s| ==> s[j] != c
    ensures r.None? ==> forall j :: 0 <= j < |s| ==> s[j] != c
  {
    if |s| == 0 then None
    else if s[|s| - 1] == c then Some(|s| - 1)
    else LastIndexOf(s[..|s| - 1], c)
  }

  /** The text after the last `c`, or all of `s` when it has none. */
  function After(s: string, c: char): string {
    match LastIndexOf(s, c)
    case None => s
    case Some(i) => s[i + 1..]
  }

  function LowerAscii(s: string): (r: string)
    ensures |r| == |s|
  {
    if |s| == 0 then ""
    else [if IsUpper(s[0]) then (s[0] as int + 32) as char else s[0]] + LowerAscii(s[1..])
  }

  /**
    The domain rules of the email check: the part after the `@` has at least
    two dot-separated segments and its last segment, compared case-blind, is
    `com` or `net`. The rest of the address grammar is the `grammar` argument.
  */
  predicate EmailDomainOk(s: string) {
    var domain := After(s, '@');
    LastIndexOf(domain, '.').Some? && LowerAscii(After(domain, '.')) in {"com", "net"}
  }

  predicate EmailOk(s: string, grammar: string -> bool) {
    grammar(s) && EmailDomainOk(s)
  }

  /** A required, non-empty string field. */
  function StringRule(body: map<string, JsValue>, key: string, name: string): (r: Option<SchemaError>)
    ensures r.None? <==> key in body && body[key].Str? && body[key].s != ""
  {
    match Field(body, key)
    case Undefined => Some(Required(name))
    case Str(s) => if s == "" then Some(EmptyString(name)) else None
    case _ => Some(NotAString(name))
  }

  predicate PasswordFieldOk(body: map<string, JsValue>) {
    "password" in body && body["password"].Str? && PasswordPattern(Trim(body["password"].s))
  }

  predicate EmailFieldOk(body: map<string, JsValue>, grammar: string -> bool) {
    "email" in body && body["email"].Str? && body["email"].s != "" && EmailOk(body["email"].s, grammar)
  }

  /** A required email whose every failure reads `message`. */
  function EmailRule(body: map<string, JsValue>, grammar: string -> bool, message: string): (r: Option<SchemaError>)
    ensures r.None? <==> EmailFieldOk(body, grammar)
    ensures r.Some? ==> r == Some(Custom(message))
  {
    if EmailFieldOk(body, grammar) then None else Some(Custom(message))
  }

  /** A required password matching the pattern; every failure reads the one password message. */
  function PasswordRule(body: map<string, JsValue>): (r: Option<SchemaError>)
    ensures r.None? <==> PasswordFieldOk(body)
    ensures r.Some? ==> r == Some(Custom(PasswordMessage))
  {
    if PasswordFieldOk(body) then None else Some(Custom(PasswordMessage))
  }

  /** The keys of `body` the schema does not declare. */
  function UnknownKeys(body: map<string, JsValue>, declared: set<string>): (r: Option<SchemaError>)
    ensures r.None? <==> body.Keys <= declared
  {
    if body.Keys <= declared then None else Some(NotAllowed(body.Keys - declared))
  }

  /** The first of two rule results: the earlier rule's error wins. */
  function FirstError(earlier: Option<SchemaError>, later: Option<SchemaError>): (r: Option<SchemaError>)
    ensures r.None? <==> earlier.None? && later.None?
    ensures earlier.Some? ==> r == earlier
  {
    if earlier.Some? then earlier else later
  }

  const UserKeys := {"firstName", "lastName", "role", "email", "password"}
  const TicketKeys := {"brand", "model", "issue"}
  const UpdateKeys := {"isFixed", "ownerEmail"}

  predicate NonEmptyString(body: map<string, JsValue>, key: string) {
    key in body && body[key].Str? && body[key].s != ""
  }

  /**
    A body the user schema accepts: non-empty string names and role, a valid
    email, a password matching the pattern, and no other keys. The role is any
    string at this layer.
  */
  predicate UserBodyOk(body: map<string, JsValue>, grammar: string -> bool) {
    && NonEmptyString(body, "firstName")
    && NonEmptyString(body, "lastName")
    && NonEmptyString(body, "role")
    && EmailFieldOk(body, grammar)
    && PasswordFieldOk(body)
    && body.Keys <= UserKeys
  }

  function ValidateCreateUser(body: map<string, JsValue>, grammar: string -> bool): (r: Option<SchemaError>)
    ensures r.None? <==> UserBodyOk(body, grammar)
  {
    FirstError(StringRule(body, "firstName", "First Name"),
    FirstError(StringRule(body, "lastName", "Last Name"),
    FirstError(StringRule(body, "role", "Role"),
    FirstError(EmailRule(body, grammar, CreateUserEmailMessage),
    FirstError(PasswordRule(body),
               UnknownKeys(body, UserKeys))))))
  }

  /** A body the ticket-creation schema accepts: non-empty string brand, model and issue, nothing else. */
  predicate TicketBodyOk(body: map<string, JsValue>) {
    && NonEmptyString(body, "brand")
    && NonEmptyString(body, "model")
    && NonEmptyString(body, "issue")
    && body.Keys <= TicketKeys
  }

  function ValidateCreateTicket(body: map<string, JsValue>): (r: Option<SchemaError>)
    ensures r.None? <==> TicketBodyOk(body)
  {
    FirstError(StringRule(body, "brand", "brand is required"),
    FirstError(StringRule(body, "model", "model is missing"),
    FirstError(StringRule(body, "issue", "issue is missing"),
               UnknownKeys(body, TicketKeys))))
  }

  /** An optional boolean `isFixed`; any other value reads "isFixed is missing". */
  function IsFixedRule(body: map<string, JsValue>): (r: Option<SchemaError>)
    ensures r.None? <==> Field(body, "isFixed").Undefined? || Field(body, "isFixed").Bool?
    ensures r.Some? ==> r == Some(Custom(IsFixedMessage))
  {
    match Field(body, "isFixed")
    case Undefined => None
    case Bool(_) => None
    case _ => Some(Custom(IsFixedMessage))
  }

  /** A body the ticket-update schema accepts: an optional boolean `isFixed`, a required valid `ownerEmail`. */
  predicate UpdateBodyOk(body: map<string, JsValue>, grammar: string -> bool) {
    && (Field(body, "isFixed").Undefined? || Field(body, "isFixed").Bool?)
    && "ownerEmail" in body && body["ownerEmail"].Str? && body["ownerEmail"].s != ""
    && EmailOk(body["ownerEmail"].s, grammar)
    && body.Keys <= UpdateKeys
  }

  function ValidateUpdateTicket(body: map<string, JsValue>, grammar: string -> bool): (r: Option<SchemaError>)
    ensures r.None? <==> UpdateBodyOk(body, grammar)
  {
    var ownerEmail :=
      if "ownerEmail" in body && body["ownerEmail"].Str? && body["ownerEmail"].s != ""
         && EmailOk(body["ownerEmail"].s, grammar)
      then None else Some(Custom(UpdateTicketEmailMessage));
    FirstError(IsFixedRule(body), FirstError(ownerEmail, UnknownKeys(body, UpdateKeys)))
  }

  /** A body with good names, role and email but a bad password is refused with the password message. */
  lemma PasswordErrorReported(body: map<string, JsValue>, grammar: string -> bool)
    requires NonEmptyString(body, "firstName") && NonEmptyString(body, "lastName")
    requires NonEmptyString(body, "role") && EmailFieldOk(body, grammar)
    requires !PasswordFieldOk(body)
    ensures ValidateCreateUser(body, grammar) == Some(Custom(PasswordMessage))
  {
  }

  /** A body with good names and role but a bad email is refused with the email message. */
  lemma EmailErrorReported(body: map<string, JsValue>, grammar: string -> bool)
    requires NonEmptyString(body, "firstName") && NonEmptyString(body, "lastName")
    requires NonEmptyString(body, "role") && !EmailFieldOk(body, grammar)
    ensures ValidateCreateUser(body, grammar) == Some(Custom(CreateUserEmailMessage))
  {
  }

  /** A ticket body cannot name its owner: `ownerEmail` is not a key of the creation schema. */
  lemma OwnerEmailNotAccepted(body: map<string, JsValue>)
    requires "ownerEmail" in body
    ensures ValidateCreateTicket(body).Some?
  {
  }

  /** A line break right after a terminator-free prefix ends the first line there. */
  lemma {:induction false} LineEndAtBreak(prefix: string, rest: string)
    requires forall i :: 0 <= i < |prefix| ==> !IsLineTerminator(prefix[i])
    ensures LineEnd(prefix + "\n" + rest) == |prefix|
  {
    if |prefix| > 0 {
      assert (prefix + "\n" + rest)[1..] == prefix[1..] + "\n" + rest;
      LineEndAtBreak(prefix[1..], rest);
    }
  }

  /** The first line of `prefix + "\n" + rest` is `prefix` itself. */
  lemma FirstLine(prefix: string, rest: string)
    requires forall i :: 0 <= i < |prefix| ==> !IsLineTerminator(prefix[i])
    ensures var x := prefix + "\n" + rest; x[..LineEnd(x)] == prefix
  {
    var x := prefix + "\n" + rest;
    LineEndAtBreak(prefix, rest);
    assert x == prefix + ("\n" + rest);
  }

  /**
    Whatever follows a line break is invisible to the pattern: a first line
    shorter than 8 code units is refused however strong the rest is.
  */
  lemma ShortFirstLineRejected(prefix: string, rest: string)
    requires forall i :: 0 <= i < |prefix| ==> !IsLineTerminator(prefix[i])
    requires Utf16Length(prefix) < 8
    ensures !PasswordPattern(prefix + "\n" + rest)
  {
    FirstLine(prefix, rest);
  }

  /**
    On a single line the pattern is the plain rule: at least 8 code units
    with a lower-case letter, an upper-case letter, a digit and a special
    character.
  */
  lemma SingleLinePassword(s: string)
    requires forall i :: 0 <= i < |s| ==> !IsLineTerminator(s[i])
    ensures PasswordPattern(s) <==>
      && Utf16Length(s) >= 8
      && Has(s, |s|, IsLower) && Has(s, |s|, IsUpper) && Has(s, |s|, IsDigit) && Has(s, |s|, IsSpecial)
  {
    assert s[..|s|] == s;
  }

  /** Leading white space never changes what remains after trimming the start. */
  lemma {:induction false} TrimStartSkipsPadding(pad: string, s: string)
    requires forall i :: 0 <= i < |pad| ==> IsTrimmed(pad[i])
    ensures TrimStart(pad + s) == TrimStart(s)
  {
    if |pad| == 0 {
      assert pad + s == s;
    } else {
      assert (pad + s)[0] == pad[0];
      assert (pad + s)[1..] == pad[1..] + s;
      TrimStartSkipsPadding(pad[1..], s);
    }
  }

  /**
    The schema trims the password before matching it, so white space, line
    breaks included, in front of a password never changes the verdict.
  */
  lemma LeadingWhitespaceIgnored(pad: string, password: string)
    requires forall i :: 0 <= i < |pad| ==> IsTrimmed(pad[i])
    ensures PasswordFieldOk(map["password" := Str(pad + password)])
        <==> PasswordFieldOk(map["password" := Str(password)])
  {
    TrimStartSkipsPadding(pad, password);
  }

  /** Trimming twice is trimming once. */
  lemma TrimIdempotent(s: string)
    ensures Trim(Trim(s)) == Trim(s)
  {
    var t := Trim(s);
    if |t| > 0 {
      assert TrimStart(t) == t;
      assert TrimEnd(t) == t;
    }
  }
}
