/**
 * The registration form's email check: the whole string must match
 * `[a-zA-Z0-9._-]+@[a-z]+\.+[a-z]+`. The pattern is run as a deterministic
 * automaton over the characters; `EmailShape` is the same language written
 * as a decomposition of the string, and the two are proved equal.
 */
module EmailFormat {
  import opened Text

  /** A character allowed before the '@'. */
  predicate IsLocalChar(c: char) {
    IsLetter(c) || IsDigit(c) || c == '.' || c == '_' || c == '-'
  }

  ghost predicate AllLocal(t: string) {
    forall i :: 0 <= i < |t| ==> IsLocalChar(t[i])
  }

  ghost predicate AllLower(t: string) {
    forall i :: 0 <= i < |t| ==> IsLower(t[i])
  }

  ghost predicate AllDots(t: string) {
    forall i :: 0 <= i < |t| ==> t[i] == '.'
  }

  /**
   * The pattern as a decomposition: a non-empty local part, '@', a non-empty
   * run of lower-case letters, a non-empty run of dots, and a non-empty run
   * of lower-case letters, ending the string.
   */
  ghost predicate Splits(s: string, at: int, dots: int, tld: int) {
    && 0 < at && at + 1 < dots < tld < |s|
    && AllLocal(s[..at]) && s[at] == '@'
    && AllLower(s[at + 1..dots]) && AllDots(s[dots..tld]) && AllLower(s[tld..])
  }

  ghost predicate EmailShape(s: string) {
    exists at, dots, tld :: Splits(s, at, dots, tld)
  }

  /** Where the automaton is: which part of the pattern it is in. */
  datatype MatchState = Start | Local | AfterAt | Domain | Dots | Tld | Dead

  function Step(q: MatchState, c: char): MatchState {
    match q
    case Start => if IsLocalChar(c) then Local else Dead
    case Local => if IsLocalChar(c) then Local else if c == '@' then AfterAt else Dead
    case AfterAt => if IsLower(c) then Domain else Dead
    case Domain => if IsLower(c) then Domain else if c == '.' then Dots else Dead
    case Dots => if c == '.' then Dots else if IsLower(c) then Tld else Dead
    case Tld => if IsLower(c) then Tld else Dead
    case Dead => Dead
  }

  function Run(q: MatchState, t: string): MatchState
    decreases |t|
  {
    if |t| == 0 then q else Run(Step(q, t[0]), t[1..])
  }

  /** `isValidEmail`: the whole string matches the pattern. */
  function IsValidEmail(email: string): bool {
    Run(Start, email) == Tld
  }

  lemma {:induction false} RunAppend(q: MatchState, a: string, b: string)
    ensures Run(q, a + b) == Run(Run(q, a), b)
    decreases |a|
  {
    if |a| == 0 {
      assert a + b == b;
    } else {
      assert (a + b)[0] == a[0] && (a + b)[1..] == a[1..] + b;
      RunAppend(Step(q, a[0]), a[1..], b);
    }
  }

  lemma {:induction false} RunStays(q: MatchState, t: string, stay: char -> bool)
    requires forall c :: stay(c) ==> Step(q, c) == q
    requires forall i :: 0 <= i < |t| ==> stay(t[i])
    ensures Run(q, t) == q
  {
    if |t| != 0 {
      RunStays(q, t[1..], stay);
    }
  }

  lemma {:induction false} DeadStaysDead(t: string)
    ensures Run(Dead, t) == Dead
  {
    if |t| != 0 {
      DeadStaysDead(t[1..]);
    }
  }

  /** From `Tld`, acceptance means only lower-case letters follow. */
  lemma {:induction false} FromTld(t: string)
    requires Run(Tld, t) == Tld
    ensures AllLower(t)
  {
    if |t| != 0 {
      if !IsLower(t[0]) {
        DeadStaysDead(t[1..]);
      } else {
        FromTld(t[1..]);
      }
    }
  }

  /** From `Dots`, acceptance means dots, then a non-empty run of letters. */
  lemma {:induction false} FromDots(t: string) returns (k: int)
    requires Run(Dots, t) == Tld
    ensures 0 <= k < |t| && AllDots(t[..k]) && AllLower(t[k..])
  {
    assert |t| != 0;
    if t[0] == '.' {
      var k' := FromDots(t[1..]);
      k := k' + 1;
      assert t[..k] == [t[0]] + t[1..][..k'];
    } else if IsLower(t[0]) {
      FromTld(t[1..]);
      k := 0;
      assert t[k..] == [t[0]] + t[1..];
    } else {
      DeadStaysDead(t[1..]);
      assert false;
    }
  }

  /** From `Domain`, acceptance means letters, a non-empty run of dots, then letters. */
  lemma {:induction false} FromDomain(t: string) returns (d: int, e: int)
    requires Run(Domain, t) == Tld
    ensures 0 <= d < e < |t| && AllLower(t[..d]) && AllDots(t[d..e]) && AllLower(t[e..])
  {
    assert |t| != 0;
    if IsLower(t[0]) {
      var d', e' := FromDomain(t[1..]);
      d, e := d' + 1, e' + 1;
      assert t[..d] == [t[0]] + t[1..][..d'];
      assert t[d..e] == t[1..][d'..e'];
      assert t[e..] == t[1..][e'..];
    } else if t[0] == '.' {
      var k := FromDots(t[1..]);
      d, e := 0, k + 1;
      assert t[d..e] == [t[0]] + t[1..][..k];
      assert t[e..] == t[1..][k..];
    } else {
      DeadStaysDead(t[1..]);
      assert false;
    }
  }

  /** Slicing after dropping the head is slicing one further along. */
  lemma TailSlice(t: string, i: int, j: int)
    requires 1 <= i <= j <= |t|
    ensures t[i..j] == t[1..][i - 1..j - 1]
  {
  }

  lemma HeadSlice(t: string, k: int)
    requires 1 <= k <= |t|
    ensures t[..k] == [t[0]] + t[1..][..k - 1]
  {
  }

  /** Right after the '@', acceptance means letters, dots and letters. */
  lemma {:induction false} FromAfterAt(rest: string) returns (d: int, e: int)
    requires Run(AfterAt, rest) == Tld
    ensures 0 < d < e < |rest| && AllLower(rest[..d]) && AllDots(rest[d..e]) && AllLower(rest[e..])
  {
    assert |rest| != 0;
    if !IsLower(rest[0]) {
      DeadStaysDead(rest[1..]);
      assert false;
    }
    var d', e' := FromDomain(rest[1..]);
    d, e := d' + 1, e' + 1;
    HeadSlice(rest, d);
    TailSlice(rest, d, e);
    TailSlice(rest, e, |rest|);
  }

  /** From `Local`, acceptance means local characters, '@', and a domain. */
  lemma {:induction false} FromLocalParts(t: string) returns (at: int, d: int, e: int)
    requires Run(Local, t) == Tld
    ensures 0 <= at && at + 1 < d < e < |t|
    ensures AllLocal(t[..at]) && t[at] == '@'
    ensures AllLower(t[at + 1..d]) && AllDots(t[d..e]) && AllLower(t[e..])
  {
    assert |t| != 0;
    if IsLocalChar(t[0]) {
      var at', d', e' := FromLocalParts(t[1..]);
      at, d, e := at' + 1, d' + 1, e' + 1;
      HeadSlice(t, at);
      TailSlice(t, at + 1, d);
      TailSlice(t, d, e);
      TailSlice(t, e, |t|);
    } else if t[0] == '@' {
      var d', e' := FromAfterAt(t[1..]);
      at, d, e := 0, d' + 1, e' + 1;
      TailSlice(t, 1, d);
      TailSlice(t, d, e);
      TailSlice(t, e, |t|);
    } else {
      DeadStaysDead(t[1..]);
      assert false;
    }
  }

  /** A first character moving `q` to `p`, then characters that keep `p`. */
  lemma EnterThenStay(q: MatchState, p: MatchState, t: string, stay: char -> bool)
    requires |t| != 0 && Step(q, t[0]) == p
    requires forall c :: stay(c) ==> Step(p, c) == p
    requires forall i :: 1 <= i < |t| ==> stay(t[i])
    ensures Run(q, t) == p
  {
    RunStays(p, t[1..], stay);
  }

  lemma {:induction false} AcceptedHasShape(s: string)
    requires Run(Start, s) == Tld
    ensures EmailShape(s)
  {
    assert |s| != 0;
    if !IsLocalChar(s[0]) {
      DeadStaysDead(s[1..]);
      assert false;
    }
    var at, d, e := FromLocalParts(s[1..]);
    assert s[..at + 1] == [s[0]] + s[1..][..at];
    assert s[at + 2..d + 1] == s[1..][at + 1..d];
    assert s[d + 1..e + 1] == s[1..][d..e];
    assert s[e + 1..] == s[1..][e..];
    assert Splits(s, at + 1, d + 1, e + 1);
  }

  /** After the '@': letters, dots, letters reach `Tld`. */
  lemma DomainAccepted(domain: string, dots: string, tld: string)
    requires |domain| != 0 && AllLower(domain)
    requires |dots| != 0 && AllDots(dots)
    requires |tld| != 0 && AllLower(tld)
    ensures Run(AfterAt, domain + (dots + tld)) == Tld
  {
    EnterThenStay(AfterAt, Domain, domain, IsLower);
    EnterThenStay(Domain, Dots, dots, c => c == '.');
    EnterThenStay(Dots, Tld, tld, IsLower);
    RunAppend(Domain, dots, tld);
    RunAppend(AfterAt, domain, dots + tld);
  }

  lemma ShapeIsAccepted(s: string, at: int, d: int, e: int)
    requires Splits(s, at, d, e)
    ensures Run(Start, s) == Tld
  {
    var local, rest := s[..at], s[at + 1..d] + (s[d..e] + s[e..]);
    DomainAccepted(s[at + 1..d], s[d..e], s[e..]);
    EnterThenStay(Start, Local, local, IsLocalChar);
    RunAppend(Local, [s[at]], rest);
    RunAppend(Start, local, [s[at]] + rest);
    assert s[d..] == s[d..e] + s[e..];
    assert s[at + 1..] == s[at + 1..d] + s[d..];
    assert s[at..] == [s[at]] + s[at + 1..];
    assert s == local + s[at..];
  }

  /** The automaton accepts exactly the strings of the pattern's shape. */
  lemma ValidEmailIffShape(s: string)
    ensures IsValidEmail(s) <==> EmailShape(s)
  {
    if Run(Start, s) == Tld {
      AcceptedHasShape(s);
    }
    if EmailShape(s) {
      var at, d, e :| Splits(s, at, d, e);
      ShapeIsAccepted(s, at, d, e);
    }
  }

  lemma OnlyAtOfShape(s: string, at: int, d: int, e: int)
    requires Splits(s, at, d, e)
    ensures forall i :: 0 <= i < |s| && s[i] == '@' ==> i == at
  {
    assert forall i :: 0 <= i < at ==> s[i] == s[..at][i];
    assert forall i :: at < i < d ==> s[i] == s[at + 1..d][i - at - 1];
    assert forall i :: d <= i < e ==> s[i] == s[d..e][i - d];
    assert forall i :: e <= i < |s| ==> s[i] == s[e..][i - e];
  }

  /** Every accepted email has exactly one '@'. */
  lemma ValidEmailHasOneAt(s: string)
    requires IsValidEmail(s)
    ensures exists at :: 0 <= at < |s| && s[at] == '@' && forall i :: 0 <= i < |s| && s[i] == '@' ==> i == at
  {
    AcceptedHasShape(s);
    var at, d, e :| Splits(s, at, d, e);
    OnlyAtOfShape(s, at, d, e);
  }

  /** A domain with two dotted labels, such as "mail.co.uk", is refused. */
  lemma MultiLabelDomainRejected()
    ensures !IsValidEmail("x@mail.co.uk")
  {
    RunAppend(Start, "x@mail.", "co.uk");
    assert "x@mail." + "co.uk" == "x@mail.co.uk";
    assert Run(Start, "x@mail.") == Dots;
    RunAppend(Dots, "co.", "uk");
    assert "co." + "uk" == "co.uk";
    assert Run(Dots, "co.") == Dead;
    DeadStaysDead("uk");
  }

  /** An upper-case letter after the '@' is refused. */
  lemma UpperCaseDomainRejected()
    ensures !IsValidEmail("x@Mail.com")
  {
    assert Run(Start, "x@Mail.com") == Dead;
  }

  /** A digit after the '@' is refused. */
  lemma DigitInDomainRejected()
    ensures !IsValidEmail("x@mail2.com")
  {
    assert Run(Start, "x@mail2.com") == Dead;
  }

  /** Several dots in a row between the two labels are accepted. */
  lemma RepeatedDotsAccepted()
    ensures IsValidEmail("jo@mail..com")
  {
    RunAppend(Start, "jo@mai", "l..com");
    assert "jo@mai" + "l..com" == "jo@mail..com";
    assert Run(Start, "jo@mai") == Domain;
    assert Run(Domain, "l..com") == Tld;
  }

  /** A local part made of dots only is accepted. */
  lemma DotsOnlyLocalPartAccepted()
    ensures IsValidEmail("..@a.b")
  {
    assert Run(Start, "..@a.b") == Tld;
  }
}
