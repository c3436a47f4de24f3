/** Accept/reject rules of the registration form (username, email, password).

    Each field is checked by an ordered list of named tests, each with the
    message shown when it fails. A field is accepted when no test fails, and
    the form when every field is accepted. Which of several failure messages
    the form library shows first is not modelled; the list of failing
    messages is. */
module Validation {

  /** A field value as the schema receives it: absent (undefined or null) or a string. */
  datatype Option<T> = None | Some(value: T)

  /** One test of a field: the message it reports and whether the value passes it. */
  datatype Check = Check(message: string, passes: bool)

  /** The messages of the failing tests, in declaration order. */
  function Failures(checks: seq<Check>): (r: seq<string>)
    ensures |r| <= |checks|
    ensures r == [] <==> forall i :: 0 <= i < |checks| ==> checks[i].passes
    ensures forall m :: m in r <==> exists i :: 0 <= i < |checks| && !checks[i].passes && checks[i].message == m
  {
    if checks == [] then []
    else (if checks[0].passes then [] else [checks[0].message]) + Failures(checks[1..])
  }

  // ---------------------------------------------------------------------------
  // The generic rules

  /** `required` on a string: the value must be present and non-empty. */
  predicate Required(v: Option<string>)
  {
    v.Some? && |v.value| > 0
  }

  /** `min(n)` on a string: skipped when the value is absent, otherwise at least `n` characters. */
  predicate MinLength(v: Option<string>, n: nat)
  {
    v.None? || |v.value| >= n
  }

  /** `value || ""`: the absent value and the empty string both become "". */
  function OrEmpty(v: Option<string>): string
  {
    if v.Some? then v.value else ""
  }

  // ---------------------------------------------------------------------------
  // Username

  const UsernameRequired := "Username is required!"
  const UsernameTooShort := "Username must be at least 5 characters long"

  function UsernameChecks(v: Option<string>): (r: seq<Check>)
    ensures |r| == 2
    ensures r[0].message == UsernameRequired && (r[0].passes <==> v.Some? && v.value != "")
    ensures r[1].message == UsernameTooShort && (r[1].passes <==> v.None? || |v.value| >= 5)
  {
    [Check(UsernameRequired, Required(v)),
     Check(UsernameTooShort, MinLength(v, 5))]
  }

  function UsernameErrors(v: Option<string>): seq<string>
  {
    Failures(UsernameChecks(v))
  }

  /** A username is accepted iff it is present with at least five characters;
      an absent or empty one reports the required message. */
  lemma UsernameAccepted(v: Option<string>)
    ensures UsernameErrors(v) == [] <==> v.Some? && |v.value| >= 5
    ensures UsernameRequired in UsernameErrors(v) <==> v == None || v == Some("")
  {
    var c := UsernameChecks(v);
    assert (forall i :: 0 <= i < |c| ==> c[i].passes) <==> c[0].passes && c[1].passes;
  }

  // ---------------------------------------------------------------------------
  // Email

  const EmailRequired := "Email is required!"
  const EmailInvalid := "Please enter a valid email address"

  /** A character of the class [^@ ]. */
  predicate Plain(c: char)
  {
    c != '@' && c != ' '
  }

  predicate AllPlain(s: string)
  {
    forall i :: 0 <= i < |s| ==> Plain(s[i])
  }

  /** The language of the pattern ^[^@ ]+@[^@ ]+\.[^@ ]{2,}$, read piece by
      piece: one or more plain characters, '@', one or more plain characters,
      '.', two or more plain characters, and nothing else. */
  predicate MatchesEmailPattern(s: string)
  {
    exists at, dot :: 0 < at && at + 1 < dot && dot + 3 <= |s| && s[at] == '@' && s[dot] == '.' &&
      AllPlain(s[..at]) && AllPlain(s[at + 1..dot]) && AllPlain(s[dot + 1..])
  }

  function EmailChecks(v: Option<string>): (r: seq<Check>)
    ensures |r| == 2
    ensures r[0].message == EmailRequired && (r[0].passes <==> v.Some? && v.value != "")
    ensures r[1].message == EmailInvalid && (r[1].passes <==> v.None? || MatchesEmailPattern(v.value))
  {
    [Check(EmailRequired, Required(v)),
     Check(EmailInvalid, v.None? || MatchesEmailPattern(v.value))]
  }

  function EmailErrors(v: Option<string>): seq<string>
  {
    Failures(EmailChecks(v))
  }

  /** Number of occurrences of `c` in `s`. */
  function CountOf(s: string, c: char): (n: nat)
    ensures n <= |s|
    ensures n == 0 <==> forall i :: 0 <= i < |s| ==> s[i] != c
  {
    if s == [] then 0 else (if s[0] == c then 1 else 0) + CountOf(s[1..], c)
  }

  lemma {:induction false} CountOfAppend(a: string, b: string, c: char)
    ensures CountOf(a + b, c) == CountOf(a, c) + CountOf(b, c)
  {
    if a == [] {
      assert a + b == b;
    } else {
      assert (a + b)[1..] == a[1..] + b;
      CountOfAppend(a[1..], b, c);
    }
  }

  /** The part after '@' holds a '.' with at least one character before it
      and at least two after it. */
  predicate HasDotSplit(d: string)
  {
    exists p :: 1 <= p && p + 3 <= |d| && d[p] == '.'
  }

  /** The same language, described by what the address contains: no space,
      exactly one '@', something before it, and a dot split after it. */
  predicate EmailShape(s: string)
  {
    (forall i :: 0 <= i < |s| ==> s[i] != ' ') &&
    CountOf(s, '@') == 1 &&
    exists at :: 0 < at < |s| && s[at] == '@' && HasDotSplit(s[at + 1..])
  }

  /** Splitting `s` around position `at` and counting '@' on each side. */
  lemma CountAround(s: string, at: int)
    requires 0 <= at < |s|
    ensures CountOf(s, '@') == CountOf(s[..at], '@') + (if s[at] == '@' then 1 else 0) + CountOf(s[at + 1..], '@')
  {
    var front, back := s[..at], s[at..];
    assert s == front + back;
    CountOfAppend(front, back, '@');
    assert back[1..] == s[at + 1..];
  }

  lemma PatternGivesShape(s: string, at: int, dot: int)
    requires 0 < at && at + 1 < dot && dot + 3 <= |s| && s[at] == '@' && s[dot] == '.'
    requires AllPlain(s[..at]) && AllPlain(s[at + 1..dot]) && AllPlain(s[dot + 1..])
    ensures EmailShape(s)
  {
    forall i | 0 <= i < |s| ensures s[i] != ' ' {
      if i < at {
        assert s[..at][i] == s[i];
      } else if at < i < dot {
        assert s[at + 1..dot][i - at - 1] == s[i];
      } else if dot < i {
        assert s[dot + 1..][i - dot - 1] == s[i];
      }
    }
    var after := s[at + 1..];
    forall i | 0 <= i < |after| ensures after[i] != '@' {
      if at + 1 + i < dot {
        assert s[at + 1..dot][i] == after[i];
      } else if at + 1 + i > dot {
        assert s[dot + 1..][i - (dot - at)] == after[i];
      }
    }
    CountAround(s, at);
    assert after[dot - at - 1] == '.';
    assert HasDotSplit(after);
  }

  /** With a single '@', at position `at`, no other position holds one. */
  lemma OnlyAt(s: string, at: int)
    requires 0 <= at < |s| && s[at] == '@' && CountOf(s, '@') == 1
    ensures forall i :: 0 <= i < |s| && i != at ==> s[i] != '@'
  {
    CountAround(s, at);
    forall i | 0 <= i < |s| && i != at ensures s[i] != '@' {
      if i < at {
        assert s[..at][i] == s[i];
      } else {
        assert s[at + 1..][i - at - 1] == s[i];
      }
    }
  }

  /** Cut around its only '@' and a later '.', a string with no space falls
      into three runs of plain characters. */
  lemma PlainParts(s: string, at: int, dot: int)
    requires 0 <= at < dot < |s| && s[at] == '@' && CountOf(s, '@') == 1
    requires forall i :: 0 <= i < |s| ==> s[i] != ' '
    ensures AllPlain(s[..at]) && AllPlain(s[at + 1..dot]) && AllPlain(s[dot + 1..])
  {
    OnlyAt(s, at);
    var before, mid, tail := s[..at], s[at + 1..dot], s[dot + 1..];
    forall i | 0 <= i < |before| ensures Plain(before[i]) {
      assert before[i] == s[i];
    }
    forall i | 0 <= i < |mid| ensures Plain(mid[i]) {
      assert mid[i] == s[at + 1 + i];
    }
    forall i | 0 <= i < |tail| ensures Plain(tail[i]) {
      assert tail[i] == s[dot + 1 + i];
    }
  }

  lemma PatternWitness(s: string, at: int, dot: int)
    requires 0 < at && at + 1 < dot && dot + 3 <= |s| && s[at] == '@' && s[dot] == '.'
    requires AllPlain(s[..at]) && AllPlain(s[at + 1..dot]) && AllPlain(s[dot + 1..])
    ensures MatchesEmailPattern(s)
  {
  }

  lemma ShapeGivesPattern(s: string)
    requires EmailShape(s)
    ensures MatchesEmailPattern(s)
  {
    var at :| 0 < at < |s| && s[at] == '@' && HasDotSplit(s[at + 1..]);
    var after := s[at + 1..];
    var p :| 1 <= p && p + 3 <= |after| && after[p] == '.';
    var dot := at + 1 + p;
    assert s[dot] == '.';
    PlainParts(s, at, dot);
    PatternWitness(s, at, dot);
  }

  /** The pattern accepts exactly the strings with no space, exactly one '@',
      a non-empty part before it, and after it a '.' with at least one
      character before and two after. */
  lemma EmailPatternCharacterised(s: string)
    ensures MatchesEmailPattern(s) <==> EmailShape(s)
  {
    if MatchesEmailPattern(s) {
      var at, dot :| 0 < at && at + 1 < dot && dot + 3 <= |s| && s[at] == '@' && s[dot] == '.' &&
        AllPlain(s[..at]) && AllPlain(s[at + 1..dot]) && AllPlain(s[dot + 1..]);
      PatternGivesShape(s, at, dot);
    }
    if EmailShape(s) {
      ShapeGivesPattern(s);
    }
  }

  /** An email is accepted iff it is present and has the shape above; an absent
      or empty one reports the required message. */
  lemma EmailAccepted(v: Option<string>)
    ensures EmailErrors(v) == [] <==> v.Some? && EmailShape(v.value)
    ensures EmailRequired in EmailErrors(v) <==> v == None || v == Some("")
  {
    var c := EmailChecks(v);
    assert (forall i :: 0 <= i < |c| ==> c[i].passes) <==> c[0].passes && c[1].passes;
    if v.Some? {
      EmailPatternCharacterised(v.value);
    }
  }

  // ---------------------------------------------------------------------------
  // Password

  const PasswordRequired := "Password is required!"
  const PasswordTooShort := "Password must be at least 8 characters long"
  const PasswordNoNumber := "Password must contain at least one number"
  const PasswordNoUpper := "Password must contain at least one uppercase letter"

  /** A character matched by \d. This module keeps its own copy, as the
      todos-page module does, so that each mirrors one source file. */
  predicate IsDigit(c: char)
  {
    '0' <= c <= '9'
  }

  /** A character matched by [A-Z]. */
  predicate IsUpper(c: char)
  {
    'A' <= c <= 'Z'
  }

  predicate HasDigit(s: string)
  {
    exists i :: 0 <= i < |s| && IsDigit(s[i])
  }

  predicate HasUpper(s: string)
  {
    exists i :: 0 <= i < |s| && IsUpper(s[i])
  }

  function PasswordChecks(v: Option<string>): (r: seq<Check>)
    ensures |r| == 4
    ensures r[0].message == PasswordRequired && (r[0].passes <==> v.Some? && v.value != "")
    ensures r[1].message == PasswordTooShort && (r[1].passes <==> v.None? || |v.value| >= 8)
    ensures r[2].message == PasswordNoNumber && (r[2].passes <==> v.Some? && HasDigit(v.value))
    ensures r[3].message == PasswordNoUpper && (r[3].passes <==> v.Some? && HasUpper(v.value))
  {
    [Check(PasswordRequired, Required(v)),
     Check(PasswordTooShort, MinLength(v, 8)),
     Check(PasswordNoNumber, HasDigit(OrEmpty(v))),
     Check(PasswordNoUpper, HasUpper(OrEmpty(v)))]
  }

  function PasswordErrors(v: Option<string>): seq<string>
  {
    Failures(PasswordChecks(v))
  }

  /** A password is accepted iff it is present, has at least eight characters,
      a digit and an uppercase letter; an absent or empty one reports the
      required message. */
  lemma PasswordAccepted(v: Option<string>)
    ensures PasswordErrors(v) == [] <==>
              v.Some? && |v.value| >= 8 && HasDigit(v.value) && HasUpper(v.value)
    ensures PasswordRequired in PasswordErrors(v) <==> v == None || v == Some("")
  {
    var c := PasswordChecks(v);
    assert (forall i :: 0 <= i < |c| ==> c[i].passes) <==> c[0].passes && c[1].passes && c[2].passes && c[3].passes;
  }

  /** The digit and uppercase tests read an absent value as "" and so fail on it,
      unlike the length test, which skips it. */
  lemma AbsentPasswordFailsContentTests()
    ensures PasswordNoNumber in PasswordErrors(None)
    ensures PasswordNoUpper in PasswordErrors(None)
    ensures PasswordTooShort !in PasswordErrors(None)
  {
    var c := PasswordChecks(None);
    assert c[1..][1..][1..] == [c[3]];
    assert PasswordErrors(None) == [PasswordRequired, PasswordNoNumber, PasswordNoUpper];
  }

  // ---------------------------------------------------------------------------
  // The whole form

  datatype RegisterForm = RegisterForm(username: Option<string>, email: Option<string>, password: Option<string>)

  function FormErrors(f: RegisterForm): seq<string>
  {
    UsernameErrors(f.username) + EmailErrors(f.email) + PasswordErrors(f.password)
  }

  /** The form is accepted iff each of its three fields is. */
  lemma FormAccepted(f: RegisterForm)
    ensures FormErrors(f) == [] <==>
              UsernameErrors(f.username) == [] && EmailErrors(f.email) == [] && PasswordErrors(f.password) == []
  {
  }
}
