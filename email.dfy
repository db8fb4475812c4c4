/**
 * The email pattern `^[^\s@]+@[^\s@]+\.[^\s@]+$` of the email-field blur handler.
 *
 * `Matches` runs the pattern as a deterministic automaton over the value;
 * `EmailShape` is the independent, declarative reading (a non-empty local part,
 * one `@`, a domain with a dot that is neither its first nor its last character),
 * and `PatternLanguage` is the pattern read literally as a concatenation.
 * The contract of `Matches` and the lemma `EmailShapeIffPattern` prove the
 * three agree on every string.
 */
module Email {
  import Text

  /** A character of the class `[^\s@]`. Note that `.` is one. */
  predicate Ordinary(c: char)
  {
    !Text.IsWhitespace(c) && c != '@'
  }

  /** Every character of `s[lo..hi]` is in `[^\s@]`. */
  predicate OrdinaryIn(s: string, lo: nat, hi: nat)
    requires lo <= hi <= |s|
  {
    forall i :: lo <= i < hi ==> Ordinary(s[i])
  }

  /** The domain `s[lo..]` is `[^\s@]+\.[^\s@]+`: no whitespace or `@`, and a dot neither first nor last. */
  predicate DomainFrom(s: string, lo: nat)
    requires lo <= |s|
  {
    OrdinaryIn(s, lo, |s|) && exists i :: lo < i < |s| - 1 && s[i] == '.'
  }

  /** The value splits at an `@` into a non-empty local part free of whitespace and `@`, and a valid domain. */
  predicate EmailShape(s: string)
  {
    exists k :: 0 < k < |s| && s[k] == '@' && OrdinaryIn(s, 0, k) && DomainFrom(s, k + 1)
  }

  /** The pattern read literally: `u @ v . w` with three non-empty runs of `[^\s@]`. */
  predicate PatternLanguage(s: string)
  {
    exists a, b :: 0 < a && a + 1 < b < |s| - 1 && s[a] == '@' && s[b] == '.'
                   && OrdinaryIn(s, 0, a) && OrdinaryIn(s, a + 1, b) && OrdinaryIn(s, b + 1, |s|)
  }

  /** States of the automaton that recognises the pattern. */
  datatype State =
    | LocalStart   // nothing read
    | InLocal      // a non-empty local part read
    | DomainStart  // the `@` just read
    | InDomain     // domain characters read, no dot yet after its first character
    | AfterDot     // that dot just read
    | Complete     // at least one character after that dot: accepting
    | Dead         // whitespace, or an `@` where none may stand

  function Step(q: State, c: char): (next: State)
  {
    if Text.IsWhitespace(c) then Dead
    else match q
      case LocalStart => if c == '@' then Dead else InLocal
      case InLocal => if c == '@' then DomainStart else InLocal
      case DomainStart => if c == '@' then Dead else InDomain
      case InDomain => if c == '@' then Dead else if c == '.' then AfterDot else InDomain
      case AfterDot => if c == '@' then Dead else Complete
      case Complete => if c == '@' then Dead else Complete
      case Dead => Dead
  }

  /** The state reached from `q` after reading `s[p..]`. */
  function Run(q: State, s: string, p: nat): (last: State)
    requires p <= |s|
    decreases |s| - p
  {
    if p == |s| then q else Run(Step(q, s[p]), s, p + 1)
  }

  /**
   * `emailPattern.test(value)`: the automaton accepts a value exactly when it
   * splits as local part `@` domain as described by `EmailShape`.
   */
  predicate Matches(s: string)
    ensures Matches(s) <==> EmailShape(s)
  {
    RunAccepts(LocalStart, s, 0);
    Run(LocalStart, s, 0) == Complete
  }

  /** What the rest `s[p..]` must look like for the automaton, now in state `q`, to accept. */
  ghost predicate Accepts(q: State, s: string, p: nat)
    requires p <= |s|
  {
    match q
    case LocalStart => exists k :: p < k < |s| && s[k] == '@' && OrdinaryIn(s, p, k) && DomainFrom(s, k + 1)
    case InLocal => exists k :: p <= k < |s| && s[k] == '@' && OrdinaryIn(s, p, k) && DomainFrom(s, k + 1)
    case DomainStart => DomainFrom(s, p)
    case InDomain => OrdinaryIn(s, p, |s|) && exists j :: p <= j < |s| - 1 && s[j] == '.'
    case AfterDot => OrdinaryIn(s, p, |s|) && p < |s|
    case Complete => OrdinaryIn(s, p, |s|)
    case Dead => false
  }

  lemma OrdinaryInFirst(s: string, lo: nat, hi: nat)
    requires lo < hi <= |s|
    ensures OrdinaryIn(s, lo, hi) <==> Ordinary(s[lo]) && OrdinaryIn(s, lo + 1, hi)
  {
  }

  lemma StepLocalStart(s: string, p: nat)
    requires p < |s|
    ensures Accepts(LocalStart, s, p) <==> Accepts(Step(LocalStart, s[p]), s, p + 1)
  {
    if Accepts(LocalStart, s, p) {
      var k :| p < k < |s| && s[k] == '@' && OrdinaryIn(s, p, k) && DomainFrom(s, k + 1);
      OrdinaryInFirst(s, p, k);
    }
    if Ordinary(s[p]) && Accepts(InLocal, s, p + 1) {
      var k :| p + 1 <= k < |s| && s[k] == '@' && OrdinaryIn(s, p + 1, k) && DomainFrom(s, k + 1);
      OrdinaryInFirst(s, p, k);
    }
  }

  lemma StepInLocal(s: string, p: nat)
    requires p < |s|
    ensures Accepts(InLocal, s, p) <==> Accepts(Step(InLocal, s[p]), s, p + 1)
  {
    if Accepts(InLocal, s, p) {
      var k :| p <= k < |s| && s[k] == '@' && OrdinaryIn(s, p, k) && DomainFrom(s, k + 1);
      if k > p {
        OrdinaryInFirst(s, p, k);
      }
    }
    if s[p] == '@' && DomainFrom(s, p + 1) {
      assert OrdinaryIn(s, p, p);
    }
    if Ordinary(s[p]) && Accepts(InLocal, s, p + 1) {
      var k :| p + 1 <= k < |s| && s[k] == '@' && OrdinaryIn(s, p + 1, k) && DomainFrom(s, k + 1);
      OrdinaryInFirst(s, p, k);
    }
  }

  lemma StepDomain(q: State, s: string, p: nat)
    requires p < |s| && q in {DomainStart, InDomain}
    ensures Accepts(q, s, p) <==> Accepts(Step(q, s[p]), s, p + 1)
  {
    OrdinaryInFirst(s, p, |s|);
    if q == InDomain && Accepts(q, s, p) && s[p] != '.' {
      var j :| p <= j < |s| - 1 && s[j] == '.';
      assert j > p;
    }
    if q == InDomain && s[p] == '.' && Accepts(AfterDot, s, p + 1) {
      assert p < |s| - 1;
    }
  }

  lemma StepTail(q: State, s: string, p: nat)
    requires p < |s| && q in {AfterDot, Complete, Dead}
    ensures Accepts(q, s, p) <==> Accepts(Step(q, s[p]), s, p + 1)
  {
    OrdinaryInFirst(s, p, |s|);
  }

  /** Reading one character moves the automaton to the state whose residual description fits what is left. */
  lemma StepPreserves(q: State, s: string, p: nat)
    requires p < |s|
    ensures Accepts(q, s, p) <==> Accepts(Step(q, s[p]), s, p + 1)
  {
    match q
    case LocalStart => StepLocalStart(s, p);
    case InLocal => StepInLocal(s, p);
    case DomainStart => StepDomain(q, s, p);
    case InDomain => StepDomain(q, s, p);
    case _ => StepTail(q, s, p);
  }

  /** The automaton accepts from state `q` and position `p` exactly the inputs `Accepts(q, _, p)` describes. */
  lemma {:induction false} RunAccepts(q: State, s: string, p: nat)
    requires p <= |s|
    ensures Run(q, s, p) == Complete <==> Accepts(q, s, p)
    decreases |s| - p
  {
    if p < |s| {
      RunAccepts(Step(q, s[p]), s, p + 1);
      StepPreserves(q, s, p);
    }
  }

  /** The split description and the literal reading of the pattern agree. */
  lemma EmailShapeIffPattern(s: string)
    ensures EmailShape(s) <==> PatternLanguage(s)
  {
    if EmailShape(s) {
      var k :| 0 < k < |s| && s[k] == '@' && OrdinaryIn(s, 0, k) && DomainFrom(s, k + 1);
      var b :| k + 1 < b < |s| - 1 && s[b] == '.';
      assert OrdinaryIn(s, k + 1, b) && OrdinaryIn(s, b + 1, |s|);
    }
    if PatternLanguage(s) {
      var a, b :| 0 < a && a + 1 < b < |s| - 1 && s[a] == '@' && s[b] == '.'
                  && OrdinaryIn(s, 0, a) && OrdinaryIn(s, a + 1, b) && OrdinaryIn(s, b + 1, |s|);
      assert Ordinary(s[b]);
      assert OrdinaryIn(s, a + 1, |s|);
      assert DomainFrom(s, a + 1);
    }
  }

  /** A value the pattern accepts holds no whitespace and exactly one `@`. */
  lemma MatchedHasOneAt(s: string)
    requires Matches(s)
    ensures forall i :: 0 <= i < |s| ==> !Text.IsWhitespace(s[i])
    ensures exists k :: 0 < k < |s| && s[k] == '@' && forall j :: 0 <= j < |s| && j != k ==> s[j] != '@'
  {
    var k :| 0 < k < |s| && s[k] == '@' && OrdinaryIn(s, 0, k) && DomainFrom(s, k + 1);
    assert forall j :: 0 <= j < |s| && j != k ==> Ordinary(s[j]);
  }

  /** A well-formed address is accepted. */
  lemma SampleValid()
    ensures Matches("a@b.co")
  {
  }

  /** A value without `@` is rejected. */
  lemma SampleInvalid()
    ensures !Matches("not-an-email")
  {
    var s := "not-an-email";
    assert forall i :: 0 <= i < |s| ==> s[i] != '@';
  }
}
