/**
 * The status parser: the free-text status of a flight group, split on
 * whitespace, either reports no event or gives the actual time, on the query
 * date or on the date named by a closing "(DD/MM/YYYY)" token.
 */
module Status {
  import opened Common
  import opened Text
  import opened Calendar

  /** list(map(int, parts)): every part goes through int(), the first failure raises. */
  function ParseInts(parts: seq<string>): (r: Result<seq<int>>)
    ensures r.Ok? ==> |r.value| == |parts|
    ensures r.Err? ==> r.error == BadInteger
  {
    if parts == [] then Ok([])
    else
      match ParseInt(parts[0])
      case None => Err(BadInteger)
      case Some(v) =>
        match ParseInts(parts[1..])
        case Err(e) => Err(e)
        case Ok(vs) => Ok([v] + vs)
  }

  /** The list converts exactly when every part does, and then element by element. */
  lemma {:induction false} ParseIntsSpec(parts: seq<string>)
    ensures ParseInts(parts).Ok? <==> forall i :: 0 <= i < |parts| ==> ParseInt(parts[i]).Some?
    ensures ParseInts(parts).Ok? ==> forall i :: 0 <= i < |parts| ==> ParseInt(parts[i]) == Some(ParseInts(parts).value[i])
    decreases |parts|
  {
    if parts != [] {
      var rest := parts[1..];
      ParseIntsSpec(rest);
      assert forall i :: 1 <= i < |parts| ==> rest[i - 1] == parts[i];
    }
  }

  /** Python's token[1:-1]: the token without its first and last character. */
  function Inner(token: string): (s: string)
    ensures forall k :: 0 <= k < |s| ==> s[k] in token
  {
    if |token| >= 2 then token[1..|token| - 1] else ""
  }

  /**
   * Decodes the "(DD/MM/YYYY)" token that ends a cross-midnight status: the
   * outer characters are dropped, the rest is split on '/', every part goes
   * through int(), and parts 0, 1 and 2 are the day, month and year of a
   * date(year, month, day) call.
   */
  function DecodeDateToken(token: string): (r: Result<CivilDate>)
    ensures r.Ok? ==> IsPythonDate(r.value)
    ensures (forall k :: 0 <= k < |token| ==> !IsDigit(token[k])) ==> r == Err(BadInteger)
  {
    var parts := SplitOn(Inner(token), '/');
    match ParseInts(parts)
    case Err(e) => Err(e)
    case Ok(v) =>
      if |v| < 3 then Err(MissingDatePart)
      else
        var d := CivilDate(v[2], v[1], v[0]);
        if IsPythonDate(d) then Ok(d) else Err(InvalidDate)
  }

  /**
   * int() raises on the date token exactly when one of its '/'-separated
   * parts is not an integer literal, whatever the other parts hold.
   */
  lemma DecodeDateTokenIntError(token: string)
    ensures var parts := SplitOn(Inner(token), '/');
      DecodeDateToken(token) == Err(BadInteger) <==> exists i :: 0 <= i < |parts| && ParseInt(parts[i]).None?
  {
    ParseIntsSpec(SplitOn(Inner(token), '/'));
  }

  /** The "(DD/MM/YYYY)" token the airport appends when a movement happens on another date. */
  function DateToken(d: CivilDate): string
    requires WellFormed(d)
  {
    "(" + Join([Padded(d.day, 2), Padded(d.month, 2), Padded(d.year, 4)], "/") + ")"
  }

  lemma ParseIntsOfThree(a: string, b: string, c: string, x: int, y: int, z: int)
    requires ParseInt(a) == Some(x) && ParseInt(b) == Some(y) && ParseInt(c) == Some(z)
    ensures ParseInts([a, b, c]) == Ok([x, y, z])
  {
    var parts := [a, b, c];
    var r := ParseInts(parts);
    ParseIntsSpec(parts);
    assert parts[0] == a && parts[1] == b && parts[2] == c;
    assert r.Ok?;
    assert r.value[0] == x && r.value[1] == y && r.value[2] == z;
    assert r.value == [x, y, z];
  }

  lemma InnerOfDateToken(d: CivilDate)
    requires WellFormed(d)
    ensures Inner(DateToken(d)) == Join([Padded(d.day, 2), Padded(d.month, 2), Padded(d.year, 4)], "/")
  {
    var body := Join([Padded(d.day, 2), Padded(d.month, 2), Padded(d.year, 4)], "/");
    var t := DateToken(d);
    assert t == "(" + body + ")";
    assert t[1..|t| - 1] == body;
  }

  /** Every date token the airport prints decodes to its date. */
  lemma DecodeDateTokenRoundTrip(d: CivilDate)
    requires IsPythonDate(d)
    ensures DecodeDateToken(DateToken(d)) == Ok(d)
  {
    var dd, mm, yyyy := Padded(d.day, 2), Padded(d.month, 2), Padded(d.year, 4);
    var parts := [dd, mm, yyyy];
    InnerOfDateToken(d);
    assert '/' !in dd && '/' !in mm && '/' !in yyyy by {
      assert AllDigits(dd) && AllDigits(mm) && AllDigits(yyyy);
    }
    SplitOnJoin(parts, '/');
    assert SplitOn(Inner(DateToken(d)), '/') == parts;
    ParsePadded(d.day, 2);
    ParsePadded(d.month, 2);
    ParsePadded(d.year, 4);
    ParseIntsOfThree(dd, mm, yyyy, d.day, d.month, d.year);
  }

  /**
   * The actual time of a status whose time token is tokens[k]: with exactly
   * k + 2 tokens the last one names the date, with any other count the query
   * date applies. The date is decoded before the time is read.
   */
  function ActualTime(tokens: seq<string>, k: nat, day: CivilDate): (r: Result<int>)
    requires WellFormed(day) && k < |tokens|
    ensures r.Ok? <==> ParseClock(tokens[k]).Some? && (|tokens| == k + 2 ==> DecodeDateToken(tokens[k + 1]).Ok?)
    ensures r.Ok? ==> r.value >= 0
    ensures r.Err? && |tokens| == k + 2 && DecodeDateToken(tokens[k + 1]).Err? ==> r.error == DecodeDateToken(tokens[k + 1]).error
    ensures r.Ok? ==>
      var date := if |tokens| == k + 2 then DecodeDateToken(tokens[k + 1]).value else day;
      DateOf(r.value) == date && r.value - DayStart(date) == ParseClock(tokens[k]).value
  {
    var date := if |tokens| == k + 2 then DecodeDateToken(tokens[k + 1]) else Ok(day);
    match date
    case Err(e) => Err(e)
    case Ok(d) =>
      match ParseClock(tokens[k])
      case None => Err(BadClock)
      case Some(c) =>
        DateOfInstant(d, c);
        Ok(InstantOf(d, c))
  }

  /** The arrival marker as the source tests it: tokens[0] + ' ' + tokens[1] == "At gate". */
  predicate AtGate(tokens: seq<string>) {
    |tokens| >= 3 && tokens[0] + " " + tokens[1] == "At gate"
  }

  /** For whitespace-free tokens the joined test is the same as testing "At" and "gate" one by one. */
  lemma AtGateTokens(tokens: seq<string>)
    requires |tokens| >= 3 && IsToken(tokens[0]) && IsToken(tokens[1])
    ensures AtGate(tokens) <==> tokens[0] == "At" && tokens[1] == "gate"
  {
    var t0, t1 := tokens[0], tokens[1];
    var s := t0 + " " + t1;
    if s == "At gate" {
      assert s[|t0|] == ' ';
      assert forall i :: 0 <= i < |t0| ==> s[i] == t0[i];
      assert forall i :: 0 <= i < |t1| ==> s[|t0| + 1 + i] == t1[i];
      assert |t0| == 2;
      assert t0 == s[..2];
      assert t1 == s[3..];
    }
  }

  /** The departure marker: the first token is "Dep". */
  predicate Departed(tokens: seq<string>) {
    |tokens| >= 2 && tokens[0] == "Dep"
  }

  /**
   * The actual arrival time an arrival status reports for query date `day`,
   * or None when the flight is not at the gate (no event).
   */
  function ArrivalActual(status: string, day: CivilDate): (r: Result<Option<int>>)
    requires WellFormed(day)
    ensures r == Ok(None) <==> !AtGate(Split(status))
    ensures AtGate(Split(status)) ==>
      && (r.Ok? <==> ActualTime(Split(status), 2, day).Ok?)
      && (r.Ok? ==> r.value == Some(ActualTime(Split(status), 2, day).value))
      && (r.Err? ==> r.error == ActualTime(Split(status), 2, day).error)
  {
    var tokens := Split(status);
    if |tokens| >= 3 && tokens[0] + " " + tokens[1] == "At gate" then
      match ActualTime(tokens, 2, day)
      case Err(e) => Err(e)
      case Ok(t) => Ok(Some(t))
    else
      Ok(None)
  }

  /**
   * The actual departure time a departure status reports for query date
   * `day`, or None when the flight has not departed (no event).
   */
  function DepartureActual(status: string, day: CivilDate): (r: Result<Option<int>>)
    requires WellFormed(day)
    ensures r == Ok(None) <==> !Departed(Split(status))
    ensures Departed(Split(status)) ==>
      && (r.Ok? <==> ActualTime(Split(status), 1, day).Ok?)
      && (r.Ok? ==> r.value == Some(ActualTime(Split(status), 1, day).value))
      && (r.Err? ==> r.error == ActualTime(Split(status), 1, day).error)
  {
    var tokens := Split(status);
    if |tokens| >= 2 && tokens[0] == "Dep" then
      match ActualTime(tokens, 1, day)
      case Err(e) => Err(e)
      case Ok(t) => Ok(Some(t))
    else
      Ok(None)
  }

  // Worked statuses, read on query date 2023-11-01. The example lemmas take
  // their literal strings as parameters (`requires t == "09:15"`): this keeps
  // the verifier from unfolding the string functions over the whole literal.

  lemma SplitExample(status: string, tokens: seq<string>)
    requires forall i :: 0 <= i < |tokens| ==> IsToken(tokens[i])
    requires status == Join(tokens, " ")
    ensures Split(status) == tokens
  {
    SplitJoin(tokens);
  }

  lemma Clock0915(t: string)
    requires t == "09:15"
    ensures ParseClock(t) == Some(9 * 3600 + 15 * 60)
  {
    assert Padded(9, 2) == "09" && Padded(15, 2) == "15";
    assert t == ClockText(9, 15);
    ParseClockText(9, 15);
  }

  lemma Clock0005(t: string)
    requires t == "00:05"
    ensures ParseClock(t) == Some(5 * 60)
  {
    assert Padded(0, 2) == "00" && Padded(5, 2) == "05";
    assert t == ClockText(0, 5);
    ParseClockText(0, 5);
  }

  lemma Clock1430(t: string)
    requires t == "14:30"
    ensures ParseClock(t) == Some(14 * 3600 + 30 * 60)
  {
    assert Padded(14, 2) == "14" && Padded(30, 2) == "30";
    assert t == ClockText(14, 30);
    ParseClockText(14, 30);
  }

  lemma PaddedParts0211()
    ensures Padded(2, 2) == "02" && Padded(11, 2) == "11" && Padded(2023, 4) == "2023"
  {
  }

  lemma DateTokenText0211()
    ensures DateToken(CivilDate(2023, 11, 2)) == "(02/11/2023)"
  {
    PaddedParts0211();
  }

  lemma DateToken0211(t: string)
    requires t == "(02/11/2023)"
    ensures DecodeDateToken(t) == Ok(CivilDate(2023, 11, 2))
  {
    var d := CivilDate(2023, 11, 2);
    DateTokenText0211();
    DecodeDateTokenRoundTrip(d);
  }

  lemma DateTokenLetters(t: string)
    requires t == "(xx/yy/zzzz)"
    ensures DecodeDateToken(t) == Err(BadInteger)
  {
    assert forall k :: 0 <= k < |t| ==> !IsDigit(t[k]);
  }

  lemma SplitAtGate0915()
    ensures Split("At gate 09:15") == ["At", "gate", "09:15"]
  {
    SplitExample("At gate 09:15", ["At", "gate", "09:15"]);
  }

  lemma SplitFourTokens(t0: string, t1: string, t2: string, t3: string)
    requires IsToken(t0) && IsToken(t1) && IsToken(t2) && IsToken(t3)
    ensures Split(t0 + " " + (t1 + " " + (t2 + " " + t3))) == [t0, t1, t2, t3]
  {
    SplitToken(t3);
    SplitCons(t2, t3);
    SplitCons(t1, t2 + " " + t3);
    SplitCons(t0, t1 + " " + (t2 + " " + t3));
    assert [t0] + ([t1] + ([t2] + [t3])) == [t0, t1, t2, t3];
  }

  lemma SplitAtGateStatus(status: string, t2: string, t3: string)
    requires IsToken(t2) && IsToken(t3) && status == "At" + " " + ("gate" + " " + (t2 + " " + t3))
    ensures Split(status) == ["At", "gate", t2, t3]
  {
    var t0, t1 := "At", "gate";
    VisibleToken(t0);
    VisibleToken(t1);
    SplitFourTokens(t0, t1, t2, t3);
  }

  lemma SplitAtGate0005(status: string)
    requires status == "At gate 00:05 (02/11/2023)"
    ensures Split(status) == ["At", "gate", "00:05", "(02/11/2023)"]
  {
    VisibleToken("00:05");
    VisibleToken("(02/11/2023)");
    SplitAtGateStatus(status, "00:05", "(02/11/2023)");
  }

  lemma SplitAtGateLetters(status: string)
    requires status == "At gate 00:05 (xx/yy/zzzz)"
    ensures Split(status) == ["At", "gate", "00:05", "(xx/yy/zzzz)"]
  {
    VisibleToken("00:05");
    VisibleToken("(xx/yy/zzzz)");
    SplitAtGateStatus(status, "00:05", "(xx/yy/zzzz)");
  }

  lemma AtGateOf(tokens: seq<string>)
    requires |tokens| >= 3 && tokens[0] == "At" && tokens[1] == "gate"
    ensures AtGate(tokens)
  {
  }

  /** An arrival status is read through its tokens. */
  lemma ArrivalOfTokens(status: string, day: CivilDate, tokens: seq<string>, t: int)
    requires WellFormed(day) && Split(status) == tokens && AtGate(tokens)
    requires ActualTime(tokens, 2, day) == Ok(t)
    ensures ArrivalActual(status, day) == Ok(Some(t))
  {
  }

  lemma ArrivalSameDayTokens(tokens: seq<string>)
    requires tokens == ["At", "gate", "09:15"]
    ensures AtGate(tokens)
    ensures ActualTime(tokens, 2, CivilDate(2023, 11, 1)) == Ok(InstantOf(CivilDate(2023, 11, 1), 9 * 3600 + 15 * 60))
  {
    Clock0915(tokens[2]);
    AtGateOf(tokens);
    assert tokens[2] == "09:15";
  }

  lemma ArrivalSameDayExample()
    ensures ArrivalActual("At gate 09:15", CivilDate(2023, 11, 1))
         == Ok(Some(InstantOf(CivilDate(2023, 11, 1), 9 * 3600 + 15 * 60)))
  {
    var tokens := ["At", "gate", "09:15"];
    SplitAtGate0915();
    ArrivalSameDayTokens(tokens);
    ArrivalOfTokens("At gate 09:15", CivilDate(2023, 11, 1), tokens, InstantOf(CivilDate(2023, 11, 1), 9 * 3600 + 15 * 60));
  }

  lemma ArrivalNextDayTokens(tokens: seq<string>)
    requires tokens == ["At", "gate", "00:05", "(02/11/2023)"]
    ensures AtGate(tokens)
    ensures ActualTime(tokens, 2, CivilDate(2023, 11, 1)) == Ok(InstantOf(CivilDate(2023, 11, 2), 5 * 60))
  {
    Clock0005(tokens[2]);
    DateToken0211(tokens[3]);
    AtGateOf(tokens);
    assert tokens[2] == "00:05" && tokens[3] == "(02/11/2023)";
  }

  /** A landing just after midnight carries the next date and is placed on it. */
  lemma ArrivalNextDayExample()
    ensures ArrivalActual("At gate 00:05 (02/11/2023)", CivilDate(2023, 11, 1))
         == Ok(Some(InstantOf(CivilDate(2023, 11, 2), 5 * 60)))
  {
    var tokens := ["At", "gate", "00:05", "(02/11/2023)"];
    SplitAtGate0005("At gate 00:05 (02/11/2023)");
    ArrivalNextDayTokens(tokens);
    ArrivalOfTokens("At gate 00:05 (02/11/2023)", CivilDate(2023, 11, 1), tokens, InstantOf(CivilDate(2023, 11, 2), 5 * 60));
  }

  /** A status of one word reports no event in either direction. */
  lemma OneWordNoEvent(status: string, day: CivilDate)
    requires WellFormed(day) && IsToken(status)
    ensures ArrivalActual(status, day) == Ok(None) && DepartureActual(status, day) == Ok(None)
  {
    SplitToken(status);
  }

  /** A flight that has not landed or left reports no event; so does an empty status. */
  lemma NoEventExamples(cancelled: string, boarding: string)
    requires cancelled == "Cancelled" && boarding == "Boarding"
    ensures ArrivalActual(cancelled, CivilDate(2023, 11, 1)) == Ok(None)
    ensures ArrivalActual("", CivilDate(2023, 11, 1)) == Ok(None)
    ensures DepartureActual(boarding, CivilDate(2023, 11, 1)) == Ok(None)
  {
    VisibleToken(cancelled);
    OneWordNoEvent(cancelled, CivilDate(2023, 11, 1));
    VisibleToken(boarding);
    OneWordNoEvent(boarding, CivilDate(2023, 11, 1));
  }

  lemma DepartureTokens(tokens: seq<string>)
    requires tokens == ["Dep", "14:30"]
    ensures ActualTime(tokens, 1, CivilDate(2023, 11, 1)) == Ok(InstantOf(CivilDate(2023, 11, 1), 14 * 3600 + 30 * 60))
  {
    Clock1430(tokens[1]);
    assert tokens[1] == "14:30";
  }

  lemma SplitDepStatus(status: string, t1: string)
    requires IsToken(t1) && status == "Dep" + " " + t1
    ensures Split(status) == ["Dep", t1]
  {
    var t0 := "Dep";
    VisibleToken(t0);
    SplitToken(t1);
    SplitCons(t0, t1);
  }

  lemma SplitDep1430(status: string)
    requires status == "Dep 14:30"
    ensures Split(status) == ["Dep", "14:30"]
  {
    VisibleToken("14:30");
    SplitDepStatus(status, "14:30");
  }

  lemma DepartureOfTokens(status: string, day: CivilDate, tokens: seq<string>, t: int)
    requires WellFormed(day) && Split(status) == tokens && |tokens| >= 2 && tokens[0] == "Dep"
    requires ActualTime(tokens, 1, day) == Ok(t)
    ensures DepartureActual(status, day) == Ok(Some(t))
  {
  }

  lemma DepartureExample()
    ensures DepartureActual("Dep 14:30", CivilDate(2023, 11, 1))
         == Ok(Some(InstantOf(CivilDate(2023, 11, 1), 14 * 3600 + 30 * 60)))
  {
    var tokens := ["Dep", "14:30"];
    SplitDep1430("Dep 14:30");
    DepartureTokens(tokens);
    DepartureOfTokens("Dep 14:30", CivilDate(2023, 11, 1), tokens, InstantOf(CivilDate(2023, 11, 1), 14 * 3600 + 30 * 60));
  }

  lemma NonNumericTokens(tokens: seq<string>)
    requires tokens == ["At", "gate", "00:05", "(xx/yy/zzzz)"]
    ensures AtGate(tokens)
    ensures ActualTime(tokens, 2, CivilDate(2023, 11, 1)) == Err(BadInteger)
  {
    DateTokenLetters(tokens[3]);
    AtGateOf(tokens);
    assert tokens[3] == "(xx/yy/zzzz)";
  }

  /** A date token whose parts are not numbers makes int() raise. */
  lemma NonNumericDateExample()
    ensures ArrivalActual("At gate 00:05 (xx/yy/zzzz)", CivilDate(2023, 11, 1)) == Err(BadInteger)
  {
    var tokens := ["At", "gate", "00:05", "(xx/yy/zzzz)"];
    SplitAtGateLetters("At gate 00:05 (xx/yy/zzzz)");
    NonNumericTokens(tokens);
    ArrivalErrorOfTokens("At gate 00:05 (xx/yy/zzzz)", CivilDate(2023, 11, 1), tokens, BadInteger);
  }

  lemma ArrivalErrorOfTokens(status: string, day: CivilDate, tokens: seq<string>, e: Error)
    requires WellFormed(day) && Split(status) == tokens && AtGate(tokens)
    requires ActualTime(tokens, 2, day) == Err(e)
    ensures ArrivalActual(status, day) == Err(e)
  {
  }
}
