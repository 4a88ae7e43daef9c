/** The two text filters of the ingest module: `scheduleFilter` spells out an
    update schedule, `insert` splices text into a string at a position. */
module TextFilters {
  import opened Common
  import opened Providers

  // ---------------------------------------------------------------------
  // scheduleFilter

  /** "n minute(s)" or "n second(s)", or nothing when `n` is not positive. */
  function Amount(n: int, singular: string, plural: string): (r: string)
    ensures r == "" <==> n <= 0
  {
    if n > 0 then NatToString(n) + (if n > 1 then plural else singular) else ""
  }

  /** `scheduleFilter(input)`: the minutes part, a space when it is not empty,
      then the seconds part. Anything but a plain object gives "". The text
      is empty exactly when there is no positive part, and without minutes
      it is the seconds part alone. */
  function ScheduleText(input: Option<UpdateSchedule>): (r: string)
    ensures r == "" <==> input.None? || (input.value.minutes <= 0 && input.value.seconds <= 0)
    ensures input.Some? && input.value.minutes <= 0 ==> r == Amount(input.value.seconds, " second", " seconds")
  {
    if input.None? then ""
    else
      var minutes := Amount(input.value.minutes, " minute", " minutes");
      var sep := if |minutes| > 0 then " " else "";
      minutes + sep + Amount(input.value.seconds, " second", " seconds")
  }

  /** The default schedule reads "5 minutes ", with a trailing space. */
  lemma DefaultScheduleText()
    ensures ScheduleText(Some(DefaultSchedule)) == "5 minutes "
  {
    assert NatToString(5) == "5";
  }

  /** Whole minutes and no seconds leave a trailing space. */
  lemma ScheduleTextTrailingSpace(input: UpdateSchedule)
    requires input.minutes > 0 && input.seconds <= 0
    ensures var t := ScheduleText(Some(input)); |t| > 0 && t[|t| - 1] == ' '
  {
  }

  predicate IsDigit(c: char)
  {
    '0' <= c <= '9'
  }

  /** The run of digits a text starts with. */
  function LeadingDigits(s: string): (r: string)
    ensures |r| <= |s| && r == s[..|r|]
    ensures forall i :: 0 <= i < |r| ==> IsDigit(r[i])
  {
    if |s| == 0 || !IsDigit(s[0]) then "" else [s[0]] + LeadingDigits(s[1..])
  }

  lemma {:induction false} LeadingDigitsOfNumber(digits: string, rest: string)
    requires forall i :: 0 <= i < |digits| ==> IsDigit(digits[i])
    requires |rest| > 0 && !IsDigit(rest[0])
    ensures LeadingDigits(digits + rest) == digits
  {
    if |digits| > 0 {
      assert (digits + rest)[1..] == digits[1..] + rest;
      LeadingDigitsOfNumber(digits[1..], rest);
    } else {
      assert digits + rest == rest;
    }
  }

  /** A positive amount reads back as its number followed by the unit
      word, which is singular exactly when the number is 1. */
  lemma AmountReadsBack(n: int, singular: string, plural: string)
    requires n > 0
    requires |singular| > 0 && !IsDigit(singular[0]) && |plural| > 0 && !IsDigit(plural[0])
    ensures var r := Amount(n, singular, plural);
            var digits := LeadingDigits(r);
            ParseNat(digits) == n && r[|digits|..] == if n == 1 then singular else plural
  {
    var m: nat := n;
    var digits := NatToString(m);
    var unit := if m == 1 then singular else plural;
    assert Amount(n, singular, plural) == digits + unit;
    LeadingDigitsOfNumber(digits, unit);
    NatToStringRoundTrip(m);
    assert (digits + unit)[|digits|..] == unit;
  }

  /** The number of minutes can be read back from the start of the text,
      followed by the unit word (singular exactly for one minute), a space
      and the seconds part. */
  lemma ScheduleTextMinutesRoundTrip(input: UpdateSchedule)
    requires input.minutes > 0
    ensures var t := ScheduleText(Some(input));
            var digits := LeadingDigits(t);
            ParseNat(digits) == input.minutes
            && t[|digits|..] == (if input.minutes == 1 then " minute" else " minutes") + " " + Amount(input.seconds, " second", " seconds")
  {
    var m: nat := input.minutes;
    var digits := NatToString(m);
    var unit := if m == 1 then " minute" else " minutes";
    var seconds := Amount(input.seconds, " second", " seconds");
    var rest := unit + " " + seconds;
    assert ScheduleText(Some(input)) == digits + rest by {
      assert Amount(m, " minute", " minutes") == digits + unit;
      assert (digits + unit) + " " + seconds == digits + rest;
    }
    assert rest[0] == ' ';
    LeadingDigitsOfNumber(digits, rest);
    NatToStringRoundTrip(m);
    assert (digits + rest)[|digits|..] == rest;
  }

  /** Without minutes, the text is the number of seconds and the unit word,
      singular exactly for one second. */
  lemma ScheduleTextSecondsOnly(input: UpdateSchedule)
    requires input.minutes <= 0 && input.seconds > 0
    ensures var t := ScheduleText(Some(input));
            var digits := LeadingDigits(t);
            ParseNat(digits) == input.seconds && t[|digits|..] == if input.seconds == 1 then " second" else " seconds"
  {
    AmountReadsBack(input.seconds, " second", " seconds");
  }

  // ---------------------------------------------------------------------
  // insert

  /** `String.prototype.substr(0, length)`. */
  function Head(s: string, length: int): string
  {
    if length <= 0 then "" else if length >= |s| then s else s[..length]
  }

  /** `String.prototype.substr(start)`: a negative start counts from the end,
      clamped at the beginning. */
  function Tail(s: string, start: int): (r: string)
  {
    if start < 0 then (if |s| + start < 0 then s else s[|s| + start..])
    else if start >= |s| then "" else s[start..]
  }

  /** `location || input.length`: a missing or zero location means the end. */
  function Location(input: string, location: Option<int>): int
  {
    if location.None? || location.value == 0 then |input| else location.value
  }

  /** `addition || ''`. */
  function Addition(addition: Option<string>): string
  {
    if addition.None? then "" else addition.value
  }

  /** `insert(input, location, addition)`. The addition always appears whole,
      right after the part of the text before the location; a location that
      is not negative loses none of the text, so taking the addition out
      again gives the text back. */
  function Insert(input: string, location: Option<int>, addition: Option<string>): (r: string)
    ensures var add, p := Addition(addition), |Head(input, Location(input, location))|;
            p <= |input| && p + |add| <= |r| && r[p..p + |add|] == add && r[..p] == input[..p]
    ensures |r| <= |input| + |Addition(addition)|
    ensures var add, p := Addition(addition), |Head(input, Location(input, location))|;
            location.None? || location.value >= 0 ==> r[..p] + r[p + |add|..] == input
  {
    var loc, add := Location(input, location), Addition(addition);
    var head, tail := Head(input, loc), Tail(input, loc);
    var r := head + add + tail;
    assert head == input[..|head|];
    assert r[|head|..|head| + |add|] == add && r[..|head|] == head && r[|head| + |add|..] == tail;
    assert loc >= 0 ==> head + tail == input;
    r
  }

  /** Inside the text, the addition goes before the character at `loc`, and
      taking it out again gives the text back. */
  lemma InsertInside(input: string, loc: int, addition: string)
    requires 0 < loc <= |input|
    ensures Insert(input, Some(loc), Some(addition)) == input[..loc] + addition + input[loc..]
    ensures var r := Insert(input, Some(loc), Some(addition));
            r[..loc] + r[loc + |addition|..] == input
  {
    var r := input[..loc] + addition + input[loc..];
    assert r[..loc] == input[..loc];
    assert r[loc + |addition|..] == input[loc..];
  }

  /** Location 0, like a missing location, appends: the zero is falsy. */
  lemma InsertAtZeroAppends(input: string, location: Option<int>, addition: string)
    requires location.None? || location == Some(0)
    ensures Insert(input, location, Some(addition)) == input + addition
  {
    assert input[|input|..] == "";
  }

  /** A location past the end appends too. */
  lemma InsertPastEndAppends(input: string, loc: int, addition: string)
    requires loc > |input|
    ensures Insert(input, Some(loc), Some(addition)) == input + addition
  {
  }

  /** A negative location loses the text before the position it counts
      back to. */
  lemma InsertNegativeDropsPrefix(input: string, loc: int, addition: string)
    requires -|input| <= loc < 0
    ensures Insert(input, Some(loc), Some(addition)) == addition + input[|input| + loc..]
  {
  }
}
