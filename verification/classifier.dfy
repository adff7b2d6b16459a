/**
 * The keyword classifier of the report form: from the free-text description
 * and the victim count it derives the services to dispatch, a severity, and a
 * templated dispatch message.  Also the form's victim stepper and the
 * enablement of its submit button.
 */
module Classifier {
  import opened Base
  import opened Types
  import Text

  const FireWords: seq<string> := ["fire", "flame", "smoke", "burning"]
  const AmbulanceWords: seq<string> := ["injur", "hurt", "bleed", "accident", "collision", "medical"]
  const PoliceWords: seq<string> := ["theft", "robb", "police", "break-in", "suspect", "weapon", "accident", "collision"]
  const CriticalWords: seq<string> := ["critical", "life-threatening", "explosion"]
  const HighWords: seq<string> := ["severe", "major", "serious"]
  const LowWords: seq<string> := ["minor", "small"]

  /** The lower-cased description contains one of `words`. */
  predicate Mentions(description: string, words: seq<string>) {
    Text.IncludesAny(Text.ToLower(description), words)
  }

  /** Some service keyword at all occurs in the description. */
  predicate MentionsService(description: string) {
    Mentions(description, FireWords) || Mentions(description, AmbulanceWords) || Mentions(description, PoliceWords)
  }

  /** The order in which the classifier pushes services. */
  function Rank(s: Service): nat {
    match s
    case Fire => 0
    case Ambulance => 1
    case Police => 2
  }

  predicate StrictlyOrdered(ss: seq<Service>) {
    forall i, j :: 0 <= i < j < |ss| ==> Rank(ss[i]) < Rank(ss[j])
  }

  // ---------------------------------------------------------------------------
  // Services

  /**
   * The services list: fire, ambulance and police in that order, each present
   * exactly when one of its keywords occurs; with no keyword at all, a
   * description longer than 10 characters falls back to police alone.
   */
  function DetectServices(description: string): (services: seq<Service>)
    ensures Fire in services <==> Mentions(description, FireWords)
    ensures Ambulance in services <==> Mentions(description, AmbulanceWords)
    ensures Police in services <==> Mentions(description, PoliceWords) || (!MentionsService(description) && |description| > 10)
    ensures StrictlyOrdered(services)
    ensures |services| == 0 <==> !MentionsService(description) && |description| <= 10
    ensures !MentionsService(description) && |description| > 10 ==> services == [Police]
  {
    var fire := if Mentions(description, FireWords) then [Fire] else [];
    var ambulance := if Mentions(description, AmbulanceWords) then [Ambulance] else [];
    var police := if Mentions(description, PoliceWords) then [Police] else [];
    var pushed := fire + ambulance + police;
    if |pushed| == 0 && |description| > 10 then [Police] else pushed
  }

  /** Two ordered lists with the same members are the same list. */
  lemma {:induction false} OrderedByMembers(a: seq<Service>, b: seq<Service>)
    requires StrictlyOrdered(a) && StrictlyOrdered(b)
    requires forall s :: s in a <==> s in b
    ensures a == b
    decreases |a|
  {
    assert |b| > 0 ==> b[0] in a;
    if |a| == 0 {
    } else {
      assert a[0] in b;
      assert |b| > 0;
      var j :| 0 <= j < |b| && b[j] == a[0];
      assert b[0] in a;
      var i :| 0 <= i < |a| && a[i] == b[0];
      assert Rank(a[0]) <= Rank(a[i]) && Rank(b[0]) <= Rank(b[j]);
      assert a[0] == b[0];
      forall s ensures s in a[1..] <==> s in b[1..] {
        assert s in a[1..] <==> s in a && s != a[0];
        assert s in b[1..] <==> s in b && s != b[0];
      }
      OrderedByMembers(a[1..], b[1..]);
      assert a == [a[0]] + a[1..] && b == [b[0]] + b[1..];
    }
  }

  /**
   * The services list is THE ordered list of the matched services: any ordered
   * list with the membership described by the keyword rules equals it.
   */
  lemma ServicesCharacterised(description: string, expected: seq<Service>)
    requires StrictlyOrdered(expected)
    requires Fire in expected <==> Mentions(description, FireWords)
    requires Ambulance in expected <==> Mentions(description, AmbulanceWords)
    requires Police in expected <==> Mentions(description, PoliceWords) || (!MentionsService(description) && |description| > 10)
    ensures DetectServices(description) == expected
  {
    var r := DetectServices(description);
    forall s ensures s in r <==> s in expected {
      match s
      case Fire =>
      case Ambulance =>
      case Police =>
    }
    OrderedByMembers(r, expected);
  }

  /** "accident" or "collision" always calls both an ambulance and the police. */
  lemma CrashCallsAmbulanceAndPolice(description: string)
    requires Text.Includes(Text.ToLower(description), "accident") || Text.Includes(Text.ToLower(description), "collision")
    ensures Ambulance in DetectServices(description) && Police in DetectServices(description)
  {
    var d := Text.ToLower(description);
    if Text.Includes(d, "accident") {
      assert AmbulanceWords[3] == "accident" && PoliceWords[6] == "accident";
    } else {
      assert AmbulanceWords[4] == "collision" && PoliceWords[7] == "collision";
    }
  }

  // ---------------------------------------------------------------------------
  // `[...new Set(services)]`

  predicate NoDuplicates<T(==)>(xs: seq<T>) {
    forall i, j :: 0 <= i < j < |xs| ==> xs[i] != xs[j]
  }

  /** The position of the first occurrence of `x` in `xs`. */
  function FirstPos<T(==)>(xs: seq<T>, x: T): (k: nat)
    requires x in xs
    ensures k < |xs| && xs[k] == x
    ensures forall j :: 0 <= j < k ==> xs[j] != x
  {
    if xs[0] == x then 0 else 1 + FirstPos(xs[1..], x)
  }

  /** A first occurrence is found wherever it is. */
  lemma FirstPosAt<T>(xs: seq<T>, x: T, k: nat)
    requires k < |xs| && xs[k] == x
    requires forall j :: 0 <= j < k ==> xs[j] != x
    ensures FirstPos(xs, x) == k
  {
  }

  /**
   * Keeps the first occurrence of each element, in the order of those first
   * occurrences (what spreading a `Set` does).
   */
  function Dedupe<T(==,!new)>(xs: seq<T>): (r: seq<T>)
    ensures forall x :: x in r <==> x in xs
    ensures NoDuplicates(r)
    ensures |r| <= |xs|
    ensures forall i, j :: 0 <= i < j < |r| ==> FirstPos(xs, r[i]) < FirstPos(xs, r[j])
  {
    if |xs| == 0 then []
    else
      var init := Dedupe(xs[..|xs| - 1]);
      var last := xs[|xs| - 1];
      assert xs == xs[..|xs| - 1] + [last];
      FirstPosOfPrefix(xs);
      if last in init then init else init + [last]
  }

  /** Dropping the last element leaves the first position of any other element unchanged. */
  lemma FirstPosInPrefix<T>(xs: seq<T>, x: T)
    requires |xs| > 0 && x in xs[..|xs| - 1]
    ensures x in xs && FirstPos(xs, x) == FirstPos(xs[..|xs| - 1], x) < |xs| - 1
  {
    var p := xs[..|xs| - 1];
    var k := FirstPos(p, x);
    assert xs[k] == p[k];
    assert forall j :: 0 <= j < k ==> xs[j] == p[j];
    FirstPosAt(xs, x, k);
  }

  /** The prefix's first positions survive, and a new last element comes after all of them. */
  lemma FirstPosOfPrefix<T>(xs: seq<T>)
    requires |xs| > 0
    ensures forall x :: x in xs[..|xs| - 1] ==> x in xs && FirstPos(xs, x) == FirstPos(xs[..|xs| - 1], x) < |xs| - 1
    ensures xs[|xs| - 1] !in xs[..|xs| - 1] ==> FirstPos(xs, xs[|xs| - 1]) == |xs| - 1
  {
    forall x | x in xs[..|xs| - 1]
      ensures x in xs && FirstPos(xs, x) == FirstPos(xs[..|xs| - 1], x) < |xs| - 1
    {
      FirstPosInPrefix(xs, x);
    }
    if xs[|xs| - 1] !in xs[..|xs| - 1] {
      FirstPosAt(xs, xs[|xs| - 1], |xs| - 1);
    }
  }

  /** On a list without duplicates the `Set` round trip changes nothing. */
  lemma {:induction false} DedupeOfDistinct<T(!new)>(xs: seq<T>)
    requires NoDuplicates(xs)
    ensures Dedupe(xs) == xs
  {
    if |xs| > 0 {
      DedupeOfDistinct(xs[..|xs| - 1]);
      assert xs[|xs| - 1] !in xs[..|xs| - 1];
      assert xs == xs[..|xs| - 1] + [xs[|xs| - 1]];
    }
  }

  lemma OrderedHasNoDuplicates(ss: seq<Service>)
    requires StrictlyOrdered(ss)
    ensures NoDuplicates(ss)
  {
  }

  // ---------------------------------------------------------------------------
  // Severity

  /** The priority ladder: first match wins. */
  function ClassifySeverity(description: string, victims: int): (r: Severity)
    ensures victims >= 5 ==> r == Critical
    ensures r == Medium ==> victims != 0 && victims < 3
    ensures victims == 0 ==> r != Medium
  {
    if Mentions(description, CriticalWords) || victims >= 5 then Critical
    else if Mentions(description, HighWords) || victims >= 3 then High
    else if Mentions(description, LowWords) || victims == 0 then Low
    else Medium
  }

  function SeverityRank(s: Severity): nat {
    match s
    case Low => 0
    case Medium => 1
    case High => 2
    case Critical => 3
  }

  /**
   * What each level means: critical whatever else is present; high only when
   * nothing critical fired; low only when nothing higher fired; medium exactly
   * when no trigger fires, that is one or two victims and no severity keyword.
   */
  lemma SeverityLevels(description: string, victims: int)
    ensures var r := ClassifySeverity(description, victims);
      && (r == Critical <==> Mentions(description, CriticalWords) || victims >= 5)
      && (r == High <==> !Mentions(description, CriticalWords) && victims < 5
                         && (Mentions(description, HighWords) || victims >= 3))
      && (r == Low ==> Mentions(description, LowWords) || victims == 0)
      && (r == Medium <==> victims != 0 && victims < 3
                           && !Mentions(description, CriticalWords)
                           && !Mentions(description, HighWords)
                           && !Mentions(description, LowWords))
      && (0 <= victims ==>
            (r == Medium <==> ((victims == 1 || victims == 2)
                               && !Mentions(description, CriticalWords + HighWords + LowWords))))
  {
    var d := Text.ToLower(description);
    var all := CriticalWords + HighWords + LowWords;
    assert Text.IncludesAny(d, all) <==>
      Text.IncludesAny(d, CriticalWords) || Text.IncludesAny(d, HighWords) || Text.IncludesAny(d, LowWords) by {
      if Text.IncludesAny(d, all) {
        var k :| 0 <= k < |all| && Text.Includes(d, all[k]);
        if k < 3 { assert all[k] == CriticalWords[k]; }
        else if k < 6 { assert all[k] == HighWords[k - 3]; }
        else { assert all[k] == LowWords[k - 6]; }
      }
      if Text.IncludesAny(d, CriticalWords) {
        var k :| 0 <= k < 3 && Text.Includes(d, CriticalWords[k]);
        assert all[k] == CriticalWords[k];
      }
      if Text.IncludesAny(d, HighWords) {
        var k :| 0 <= k < 3 && Text.Includes(d, HighWords[k]);
        assert all[k + 3] == HighWords[k];
      }
      if Text.IncludesAny(d, LowWords) {
        var k :| 0 <= k < 2 && Text.Includes(d, LowWords[k]);
        assert all[k + 6] == LowWords[k];
      }
    }
  }

  /** For a fixed description, more victims never lower the severity. */
  lemma SeverityMonotoneInVictims(description: string, v1: int, v2: int)
    requires 0 <= v1 <= v2
    ensures SeverityRank(ClassifySeverity(description, v1)) <= SeverityRank(ClassifySeverity(description, v2))
  {
  }

  /**
   * The classifier lower-cases the description before every keyword test, so
   * the case of the text never changes the services or the severity.
   */
  lemma ClassifierIgnoresCase(description: string, victims: int)
    ensures DetectServices(Text.ToUpper(description)) == DetectServices(description)
    ensures ClassifySeverity(Text.ToUpper(description), victims) == ClassifySeverity(description, victims)
  {
    Text.ToLowerOfToUpper(description);
  }

  /** Monotonicity needs a non-negative count: one victim fewer than none reads as medium. */
  lemma NegativeVictimsBreakMonotonicity()
    ensures SeverityRank(ClassifySeverity("", -1)) > SeverityRank(ClassifySeverity("", 0))
  {
    assert !Mentions("", CriticalWords) && !Mentions("", HighWords) && !Mentions("", LowWords) by {
      assert Text.ToLower("") == "";
    }
  }

  // ---------------------------------------------------------------------------
  // Dispatch message

  /** The label the template uses for a service (an inline copy of the `SERVICE_INFO` titles). */
  function DispatchLabel(s: Service): string {
    if s == Police then "Police" else if s == Ambulance then "Ambulance" else "Fire Dept"
  }

  lemma DispatchLabelIsServiceTitle(s: Service)
    ensures DispatchLabel(s) == ServiceInfoOf(s).title
  {
  }

  function Labels(services: seq<Service>): (r: seq<string>)
    ensures |r| == |services|
    ensures forall i :: 0 <= i < |services| ==> r[i] == DispatchLabel(services[i])
  {
    if |services| == 0 then [] else [DispatchLabel(services[0])] + Labels(services[1..])
  }

  /** `s || fallback`: the empty string is falsy. */
  function OrElse(s: string, fallback: string): (r: string)
    requires fallback != ""
    ensures r != ""
    ensures r == s || r == fallback
    ensures s != "" ==> r == s
  {
    if s == "" then fallback else s
  }

  /** `description.slice(0, 120)`. */
  function Excerpt(description: string): (r: string)
    ensures Text.IsPrefix(r, description)
    ensures |r| == if |description| < 120 then |description| else 120
  {
    if |description| <= 120 then description else description[..120]
  }

  /** The text between the excerpt's "..." and the victim clause. */
  function Opening(description: string, location: string, severity: Severity): string {
    Text.ToUpper(SeverityKey(severity)) + " ALERT: " + Excerpt(description)
      + "... Location: " + OrElse(location, "Pending") + ". "
  }

  function VictimClause(victims: int): string {
    if victims > 0 then Text.IntToString(victims) + " victim(s) reported." else ""
  }

  function Closing(services: seq<Service>, contact: string): string {
    " Dispatching " + Text.Join(Labels(services), " + ") + ". Contact: " + OrElse(contact, "N/A") + "."
  }

  /** The dispatch message: empty for a description of 10 characters or fewer. */
  function DispatchMessage(description: string, location: string, victims: int, contact: string,
                           severity: Severity, services: seq<Service>): (m: string)
    ensures m == "" <==> |description| <= 10
  {
    if |description| > 10 then
      Opening(description, location, severity) + VictimClause(victims) + Closing(services, contact)
    else ""
  }

  /** The header and excerpt open the opening; the location follows them. */
  lemma OpeningShape(description: string, location: string, severity: Severity)
    ensures var o := Opening(description, location, severity);
      var head := Text.ToUpper(SeverityKey(severity)) + " ALERT: ";
      && Text.IsPrefix(head + Excerpt(description) + "...", o)
      && Text.Includes(o, "... Location: " + OrElse(location, "Pending") + ". ")
  {
    var head := Text.ToUpper(SeverityKey(severity)) + " ALERT: ";
    var ex := Excerpt(description);
    var loc := "... Location: " + OrElse(location, "Pending") + ". ";
    var o := Opening(description, location, severity);
    assert o == (head + ex) + loc;
    assert Text.OccursAt(o, loc, |head + ex|);
  }

  /** The closing names the services and ends with the contact. */
  lemma ClosingShape(services: seq<Service>, contact: string)
    ensures var c := Closing(services, contact);
      && Text.Includes(c, "Dispatching " + Text.Join(Labels(services), " + "))
      && Text.IsSuffix(". Contact: " + OrElse(contact, "N/A") + ".", c)
  {
    var disp := "Dispatching " + Text.Join(Labels(services), " + ");
    var tail := ". Contact: " + OrElse(contact, "N/A") + ".";
    var c := Closing(services, contact);
    assert c == " " + disp + tail;
    assert Text.OccursAt(c, disp, 1);
  }

  /**
   * A non-empty message opens with the upper-cased severity, " ALERT: ", the
   * excerpt (at most the first 120 characters of the description, see
   * `Excerpt`) and "...".
   */
  lemma DispatchOpensWithAlert(description: string, location: string, victims: int, contact: string,
                               severity: Severity, services: seq<Service>)
    requires |description| > 10
    ensures Text.IsPrefix(Text.ToUpper(SeverityKey(severity)) + " ALERT: " + Excerpt(description) + "...",
                          DispatchMessage(description, location, victims, contact, severity, services))
  {
    var o := Opening(description, location, severity);
    var p := Text.ToUpper(SeverityKey(severity)) + " ALERT: " + Excerpt(description) + "...";
    OpeningShape(description, location, severity);
    Text.PrefixExtends(p, o, VictimClause(victims));
    Text.PrefixExtends(p, o + VictimClause(victims), Closing(services, contact));
  }

  /** A non-empty message gives the location, or "Pending" when none was entered. */
  lemma DispatchNamesLocation(description: string, location: string, victims: int, contact: string,
                              severity: Severity, services: seq<Service>)
    requires |description| > 10
    ensures Text.Includes(DispatchMessage(description, location, victims, contact, severity, services),
                          "... Location: " + OrElse(location, "Pending") + ". ")
  {
    var o := Opening(description, location, severity);
    var p := "... Location: " + OrElse(location, "Pending") + ". ";
    OpeningShape(description, location, severity);
    Text.IncludesAppend(o, VictimClause(victims), p);
    Text.IncludesAppend(o + VictimClause(victims), Closing(services, contact), p);
  }

  /** A non-empty message names the service labels joined by " + ". */
  lemma DispatchNamesServices(description: string, location: string, victims: int, contact: string,
                              severity: Severity, services: seq<Service>)
    requires |description| > 10
    ensures Text.Includes(DispatchMessage(description, location, victims, contact, severity, services),
                          "Dispatching " + Text.Join(Labels(services), " + "))
  {
    var front := Opening(description, location, severity) + VictimClause(victims);
    var c := Closing(services, contact);
    ClosingShape(services, contact);
    Text.IncludesPrepend(front, c, "Dispatching " + Text.Join(Labels(services), " + "));
  }

  /** A non-empty message ends with the contact, or "N/A" when none was entered. */
  lemma DispatchEndsWithContact(description: string, location: string, victims: int, contact: string,
                                severity: Severity, services: seq<Service>)
    requires |description| > 10
    ensures Text.IsSuffix(". Contact: " + OrElse(contact, "N/A") + ".",
                          DispatchMessage(description, location, victims, contact, severity, services))
  {
    ClosingShape(services, contact);
    Text.SuffixExtends(". Contact: " + OrElse(contact, "N/A") + ".",
                       Opening(description, location, severity) + VictimClause(victims), Closing(services, contact));
  }

  /**
   * The victim clause is the only part the victim count affects: with victims
   * the message is the victim-free message with "{victims} victim(s) reported."
   * inserted after the location; with none it is the victim-free message.
   */
  lemma VictimClauseInsertion(description: string, location: string, victims: int, contact: string,
                              severity: Severity, services: seq<Service>)
    requires |description| > 10
    ensures var m := DispatchMessage(description, location, victims, contact, severity, services);
      var m0 := DispatchMessage(description, location, 0, contact, severity, services);
      var at := |Opening(description, location, severity)|;
      && at <= |m0|
      && (victims > 0 ==> m == m0[..at] + Text.IntToString(victims) + " victim(s) reported." + m0[at..])
      && (victims <= 0 ==> m == m0)
  {
    var o := Opening(description, location, severity);
    var c := Closing(services, contact);
    var m0 := DispatchMessage(description, location, 0, contact, severity, services);
    assert m0 == o + c;
    assert m0[..|o|] == o && m0[|o|..] == c;
  }

  /** The victim count written into the message reads back as the same number. */
  lemma VictimCountReadable(victims: int)
    requires victims > 0
    ensures var c := VictimClause(victims);
      Text.ParseInt(c[..|c| - |" victim(s) reported."|]) == Some(victims)
  {
    var c := VictimClause(victims);
    assert c[..|c| - |" victim(s) reported."|] == Text.IntToString(victims);
    Text.IntRoundTrip(victims);
  }

  /** Five victims are critical whatever the text. */
  lemma FiveVictimsExample()
    ensures ClassifySeverity("", 5) == Critical
  {
  }

  /** A critical keyword outranks the no-victims rule. */
  lemma CriticalKeywordExample()
    ensures ClassifySeverity("Critical explosion at the mall", 0) == Critical
  {
    var b := "Critical explosion at the mall";
    assert b[0] == 'C' && b[1] == 'r' && b[2] == 'i' && b[3] == 't' && b[4] == 'i' && b[5] == 'c' && b[6] == 'a' && b[7] == 'l';
    assert Text.ToLower(b)[0..8] == "critical";
    assert Text.OccursAt(Text.ToLower(b), CriticalWords[0], 0);
  }

  // ---------------------------------------------------------------------------
  // The prediction as a whole

  datatype Prediction = Prediction(services: seq<Service>, severity: Severity, dispatchMessage: string)

  /** `predictions`: services, severity and message from the current form fields. */
  function Predict(description: string, location: string, victims: int, contact: string): (p: Prediction)
    ensures p.services == DetectServices(description)
    ensures p.severity == ClassifySeverity(description, victims)
    ensures p.dispatchMessage == DispatchMessage(description, location, victims, contact, p.severity, p.services)
  {
    var services := DetectServices(description);
    var severity := ClassifySeverity(description, victims);
    OrderedHasNoDuplicates(services);
    DedupeOfDistinct(services);
    Prediction(Dedupe(services), severity, DispatchMessage(description, location, victims, contact, severity, services))
  }

  // ---------------------------------------------------------------------------
  // The rest of the form

  /** The "-" button: `Math.max(0, victims - 1)`. */
  function DecrementVictims(victims: int): (r: int)
    ensures r >= 0
    ensures victims > 0 ==> r == victims - 1
    ensures victims <= 0 ==> r == 0
  {
    if victims - 1 > 0 then victims - 1 else 0
  }

  /** The "+" button: `Math.min(10, victims + 1)`. */
  function IncrementVictims(victims: int): (r: int)
    ensures r <= 10
    ensures victims < 10 ==> r == victims + 1
    ensures victims >= 10 ==> r == 10
  {
    if victims + 1 < 10 then victims + 1 else 10
  }

  /** A press of "+" (`true`) or "-" (`false`) on the victim stepper, applied in order. */
  function PressAll(victims: int, presses: seq<bool>): int
    decreases |presses|
  {
    if |presses| == 0 then victims
    else PressAll(if presses[0] then IncrementVictims(victims) else DecrementVictims(victims), presses[1..])
  }

  /** Starting anywhere in [0, 10], no sequence of presses leaves [0, 10]. */
  lemma {:induction false} PressesStayInRange(victims: int, presses: seq<bool>)
    requires 0 <= victims <= 10
    ensures 0 <= PressAll(victims, presses) <= 10
    decreases |presses|
  {
    if |presses| > 0 {
      var next := if presses[0] then IncrementVictims(victims) else DecrementVictims(victims);
      PressesStayInRange(next, presses[1..]);
    }
  }

  /** The submit button is enabled at 10 characters, one short of a dispatch message. */
  function CanSubmit(description: string): (b: bool)
    ensures b <==> |description| >= 10
    ensures b && |description| == 10 ==>
      forall location, victims, contact :: Predict(description, location, victims, contact).dispatchMessage == ""
  {
    !(|description| < 10)
  }

  /** What submission hands on to the confirmation page. */
  datatype Submission = Submission(id: string, description: string, location: string, victims: int,
                                   contact: string, prediction: Prediction)

  /** `handleSubmit`'s payload; `now` is the clock reading in milliseconds. */
  function Submit(now: nat, description: string, location: string, victims: int, contact: string): (s: Submission)
    ensures Text.IsPrefix("RSQ-", s.id) && Text.ParseNat(s.id[4..]) == Some(now)
    ensures s.prediction == Predict(s.description, s.location, s.victims, s.contact)
    ensures s.description == description && s.location == location && s.victims == victims && s.contact == contact
  {
    Text.NatRoundTrip(now);
    var id := "RSQ-" + Text.NatToString(now);
    assert id[4..] == Text.NatToString(now);
    Submission(id, description, location, victims, contact, Predict(description, location, victims, contact))
  }
}
