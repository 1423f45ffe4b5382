/** Conversion of scheduled searches between the v1alpha1 and v1beta1 API versions. */
module ScheduledSearch {
  import opened Kube
  import opened Decimal

  const TWO_TO_THE_63: int := 0x8000_0000_0000_0000
  const TWO_TO_THE_64: int := 0x1_0000_0000_0000_0000

  type int64 = x: int | -TWO_TO_THE_63 <= x < TWO_TO_THE_63

  /** Two's complement wrap-around of a 64-bit product. */
  function Wrap64(x: int): int64 {
    (x + TWO_TO_THE_63) % TWO_TO_THE_64 - TWO_TO_THE_63
  }

  const NOW := "now"

  datatype TimestampType = EventTimestamp | IngestTimestamp

  datatype AlphaSpec = AlphaSpec(
    managedClusterName: string,
    externalClusterName: string,
    name: string,
    viewName: string,
    queryString: string,
    description: string,
    queryStart: string,
    queryEnd: string,
    schedule: string,
    timeZone: string,
    backfillLimit: int,
    enabled: bool,
    actions: seq<string>,
    labels: seq<string>)

  datatype BetaSpec = BetaSpec(
    managedClusterName: string,
    externalClusterName: string,
    name: string,
    viewName: string,
    queryString: string,
    description: string,
    maxWaitTimeSeconds: int64,
    queryTimestampType: TimestampType,
    searchIntervalSeconds: int64,
    searchIntervalOffsetSeconds: Option<int64>,
    schedule: string,
    timeZone: string,
    backfillLimit: Option<int>,
    enabled: bool,
    actions: seq<string>,
    labels: seq<string>)

  /** The seconds in one of the unit names that the parser accepts. */
  function UnitSeconds(unit: string): Option<int> {
    if unit in ["s", "sec", "second", "seconds"] then Some(1)
    else if unit in ["m", "min", "minute", "minutes"] then Some(60)
    else if unit in ["h", "hour", "hours"] then Some(3600)
    else if unit in ["d", "day", "days"] then Some(86400)
    else if unit in ["w", "week", "weeks"] then Some(604800)
    else if unit in ["y", "year", "years"] then Some(31536000)
    else None
  }

  /** A minute is sixty seconds, an hour sixty minutes, a day 24 hours, a week seven days and a year 365 days, under
      each of their names; nothing else is a unit. */
  lemma UnitsExactly(unit: string)
    ensures UnitSeconds(unit) == Some(1) <==> unit in {"s", "sec", "second", "seconds"}
    ensures UnitSeconds(unit) == Some(60 * 1) <==> unit in {"m", "min", "minute", "minutes"}
    ensures UnitSeconds(unit) == Some(60 * 60) <==> unit in {"h", "hour", "hours"}
    ensures UnitSeconds(unit) == Some(24 * 60 * 60) <==> unit in {"d", "day", "days"}
    ensures UnitSeconds(unit) == Some(7 * 24 * 60 * 60) <==> unit in {"w", "week", "weeks"}
    ensures UnitSeconds(unit) == Some(365 * 24 * 60 * 60) <==> unit in {"y", "year", "years"}
    ensures UnitSeconds(unit).Some? ==> UnitSeconds(unit).value in {1, 60, 3600, 86400, 604800, 31536000}
  {
  }

  function ParseTime(timeStr: string): Result<int64, string> {
    if timeStr == NOW then Ok(0)
    else if |timeStr| < 2 then Err("invalid time string")
    else
      var i := DigitPrefix(timeStr);
      if i == 0 then Err("invalid time string")
      else if ParseDigits(timeStr[..i]) >= TWO_TO_THE_63 then Err("invalid number in time string")
      else match UnitSeconds(timeStr[i..])
        case Some(seconds) => Ok(Wrap64(ParseDigits(timeStr[..i]) * seconds))
        case None => Err("unknown time unit")
  }

  method ParseTimeStringToSeconds(timeStr: string) returns (r: Result<int64, string>)
    ensures r == ParseTime(timeStr)
  {
    if timeStr == NOW { return Ok(0); }
    if |timeStr| < 2 { return Err("invalid time string"); }
    var i := 0;
    while i < |timeStr| && IsDigit(timeStr[i])
      invariant 0 <= i <= |timeStr| && AllDigits(timeStr[..i])
    {
      assert timeStr[..i + 1] == timeStr[..i] + [timeStr[i]];
      i := i + 1;
    }
    assert timeStr == timeStr[..i] + timeStr[i..];
    DigitPrefixOfDigits(timeStr[..i], timeStr[i..]);
    if i == 0 { return Err("invalid time string"); }
    var value := ParseDigits(timeStr[..i]);
    if value >= TWO_TO_THE_63 { return Err("invalid number in time string"); }
    match UnitSeconds(timeStr[i..])
    case Some(seconds) => return Ok(Wrap64(value * seconds));
    case None => return Err("unknown time unit");
  }

  const PRINT_UNITS: seq<(string, int)> := [("d", 86400), ("h", 3600), ("m", 60), ("s", 1)]

  /** The largest of day, hour, minute and second that divides the count. */
  function PrintUnit(timeSeconds: int): (k: nat)
    ensures k < 4 && timeSeconds % PRINT_UNITS[k].1 == 0
    ensures forall j :: 0 <= j < k ==> timeSeconds % PRINT_UNITS[j].1 != 0
  {
    if timeSeconds % 86400 == 0 then 0
    else if timeSeconds % 3600 == 0 then 1
    else if timeSeconds % 60 == 0 then 2
    else 3
  }

  function PrintTime(timeSeconds: int64): string {
    if timeSeconds <= 0 then NOW
    else
      var unit := PRINT_UNITS[PrintUnit(timeSeconds)];
      Itoa(timeSeconds / unit.1) + unit.0
  }

  /** Whole days are printed in days, other whole hours in hours, other whole minutes in minutes. */
  lemma PrintsLargestUnit(timeSeconds: int64)
    ensures timeSeconds <= 0 ==> PrintTime(timeSeconds) == "now"
    ensures var days, hours, minutes := timeSeconds / (24 * 60 * 60), timeSeconds / (60 * 60), timeSeconds / 60;
      timeSeconds > 0 ==>
        && (days * 24 * 60 * 60 == timeSeconds ==> PrintTime(timeSeconds) == Itoa(days) + "d")
        && (days * 24 * 60 * 60 != timeSeconds && hours * 60 * 60 == timeSeconds ==>
              PrintTime(timeSeconds) == Itoa(hours) + "h")
        && (hours * 60 * 60 != timeSeconds && minutes * 60 == timeSeconds ==>
              PrintTime(timeSeconds) == Itoa(minutes) + "m")
        && (minutes * 60 != timeSeconds ==> PrintTime(timeSeconds) == Itoa(timeSeconds) + "s")
  {
  }

  method ParseSecondsToString(timeSeconds: int64) returns (r: string)
    ensures r == PrintTime(timeSeconds)
  {
    if timeSeconds <= 0 { return NOW; }
    for k := 0 to |PRINT_UNITS|
      invariant forall j :: 0 <= j < k ==> timeSeconds % PRINT_UNITS[j].1 != 0
    {
      var unit := PRINT_UNITS[k];
      if timeSeconds >= unit.1 && timeSeconds % unit.1 == 0 {
        return Itoa(timeSeconds / unit.1) + unit.0;
      }
    }
    return Itoa(timeSeconds) + "s";
  }

  /** Digits followed by a unit name are read as the wrapped product of the two. */
  lemma ParseNumberAndUnit(digits: string, unit: string)
    requires digits != "" && AllDigits(digits) && ParseDigits(digits) < TWO_TO_THE_63
    requires UnitSeconds(unit).Some?
    ensures ParseTime(digits + unit) == Ok(Wrap64(ParseDigits(digits) * UnitSeconds(unit).value))
  {
    assert !IsDigit(unit[0]);
    DigitPrefixOfDigits(digits, unit);
    assert (digits + unit)[..|digits|] == digits && (digits + unit)[|digits|..] == unit;
    assert IsDigit((digits + unit)[0]) && !IsDigit(NOW[0]);
  }

  /** The first `i` characters are a 64-bit number and the rest is a unit name. */
  predicate NumberThenUnit(timeStr: string, i: nat)
    requires i <= |timeStr|
  {
    i > 0 && AllDigits(timeStr[..i]) && ParseDigits(timeStr[..i]) < TWO_TO_THE_63 && UnitSeconds(timeStr[i..]).Some?
  }

  /** Exactly "now" and a number followed by a known unit are accepted. */
  lemma ParseAccepts(timeStr: string)
    ensures ParseTime(timeStr).Ok? <==> timeStr == NOW || exists i :: 0 <= i <= |timeStr| && NumberThenUnit(timeStr, i)
  {
    if i :| 0 <= i <= |timeStr| && NumberThenUnit(timeStr, i) {
      assert timeStr == timeStr[..i] + timeStr[i..];
      ParseNumberAndUnit(timeStr[..i], timeStr[i..]);
    } else {
      assert !NumberThenUnit(timeStr, DigitPrefix(timeStr));
    }
  }

  lemma WrapFits(x: int)
    requires -TWO_TO_THE_63 <= x < TWO_TO_THE_63
    ensures Wrap64(x) == x
  {
  }

  lemma ParsePrintedUnit(count: nat, unit: string)
    requires UnitSeconds(unit).Some? && count <= count * UnitSeconds(unit).value < TWO_TO_THE_63
    ensures ParseTime(Itoa(count) + unit) == Ok(count * UnitSeconds(unit).value)
  {
    ParsePrintNat(count);
    ParseNumberAndUnit(PrintNat(count), unit);
    WrapFits(count * UnitSeconds(unit).value);
  }

  /** Reading back a printed second count returns it; negative counts were printed as "now". */
  lemma ParsePrint(timeSeconds: int64)
    ensures ParseTime(PrintTime(timeSeconds)) == Ok(if timeSeconds < 0 then 0 else timeSeconds)
  {
    if timeSeconds > 0 {
      var k := PrintUnit(timeSeconds);
      var count := timeSeconds / PRINT_UNITS[k].1;
      assert PrintTime(timeSeconds) == Itoa(count) + PRINT_UNITS[k].0;
      assert UnitSeconds(PRINT_UNITS[k].0) == Some(PRINT_UNITS[k].1);
      assert count * PRINT_UNITS[k].1 == timeSeconds by {
        match k {
          case 0 => assert count * 86400 == timeSeconds;
          case 1 => assert count * 3600 == timeSeconds;
          case 2 => assert count * 60 == timeSeconds;
          case 3 => assert count * 1 == timeSeconds;
        }
      }
      ParsePrintedUnit(count, PRINT_UNITS[k].0);
    }
  }

  function ToBeta(src: AlphaSpec): Result<BetaSpec, string> {
    match (ParseTime(src.queryStart), ParseTime(src.queryEnd))
    case (Ok(start), Ok(end)) =>
      Ok(BetaSpec(src.managedClusterName, src.externalClusterName, src.name, src.viewName, src.queryString,
                  src.description, 0, EventTimestamp, start, Some(end), src.schedule, src.timeZone,
                  Some(src.backfillLimit), src.enabled, src.actions, src.labels))
    case (Err(e), _) => Err(e)
    case (_, Err(e)) => Err(e)
  }

  function FromBeta(src: BetaSpec): AlphaSpec {
    AlphaSpec(src.managedClusterName, src.externalClusterName, src.name, src.viewName, src.queryString,
              src.description, PrintTime(src.searchIntervalSeconds),
              if src.searchIntervalOffsetSeconds.Some? then PrintTime(src.searchIntervalOffsetSeconds.value) else NOW,
              src.schedule, src.timeZone,
              if src.backfillLimit.Some? then src.backfillLimit.value else 0,
              src.enabled, src.actions, src.labels)
  }

  /** The start of the query becomes the interval and its end the offset; what the two versions have in common is
      carried over field by field, and what v1alpha1 cannot say gets its zero value. */
  lemma BetaFields(a: AlphaSpec)
    ensures ToBeta(a).Ok? <==> ParseTime(a.queryStart).Ok? && ParseTime(a.queryEnd).Ok?
    ensures ToBeta(a).Ok? ==> var b := ToBeta(a).value;
      && Ok(b.searchIntervalSeconds) == ParseTime(a.queryStart)
      && b.searchIntervalOffsetSeconds.Some? && Ok(b.searchIntervalOffsetSeconds.value) == ParseTime(a.queryEnd)
      && b.name == a.name && b.viewName == a.viewName && b.queryString == a.queryString
      && b.managedClusterName == a.managedClusterName && b.externalClusterName == a.externalClusterName
      && b.description == a.description && b.schedule == a.schedule && b.timeZone == a.timeZone
      && b.backfillLimit == Some(a.backfillLimit) && b.enabled == a.enabled
      && b.actions == a.actions && b.labels == a.labels
      && b.queryTimestampType == EventTimestamp && b.maxWaitTimeSeconds == 0
    ensures ParseTime(a.queryStart).Err? ==> ToBeta(a) == Err(ParseTime(a.queryStart).error)
    ensures ParseTime(a.queryStart).Ok? && ParseTime(a.queryEnd).Err? ==> ToBeta(a) == Err(ParseTime(a.queryEnd).error)
  {
  }

  lemma AlphaFields(b: BetaSpec)
    ensures var a := FromBeta(b);
      && a.queryStart == PrintTime(b.searchIntervalSeconds)
      && (b.searchIntervalOffsetSeconds.Some? ==> a.queryEnd == PrintTime(b.searchIntervalOffsetSeconds.value))
      && (b.searchIntervalOffsetSeconds.None? ==> a.queryEnd == "now")
      && a.name == b.name && a.viewName == b.viewName && a.queryString == b.queryString
      && a.managedClusterName == b.managedClusterName && a.externalClusterName == b.externalClusterName
      && a.description == b.description && a.schedule == b.schedule && a.timeZone == b.timeZone
      && (b.backfillLimit.Some? ==> a.backfillLimit == b.backfillLimit.value)
      && (b.backfillLimit.None? ==> a.backfillLimit == 0)
      && a.enabled == b.enabled && a.actions == b.actions && a.labels == b.labels
  {
  }

  /** The seconds a text stands for, however many they are. */
  function Meaning(timeStr: string): Option<nat> {
    if timeStr == NOW then Some(0)
    else if |timeStr| < 2 then None
    else
      var i := DigitPrefix(timeStr);
      if i == 0 || ParseDigits(timeStr[..i]) >= TWO_TO_THE_63 || UnitSeconds(timeStr[i..]).None? then None
      else Some(ParseDigits(timeStr[..i]) * UnitSeconds(timeStr[i..]).value)
  }

  /** A text is read as its meaning wrapped to 64 bits. */
  lemma ReadsWrapped(timeStr: string)
    ensures ParseTime(timeStr).Ok? <==> Meaning(timeStr).Some?
    ensures Meaning(timeStr).Some? ==> ParseTime(timeStr) == Ok(Wrap64(Meaning(timeStr).value))
  {
    if timeStr == NOW { WrapFits(0); }
  }

  /** A text keeps its meaning, both when it is read and when it is read, printed and read again, exactly when the
      meaning fits 64 bits. */
  lemma KeepsMeaningExactly(timeStr: string)
    requires Meaning(timeStr).Some?
    ensures ParseTime(timeStr) == Ok(Meaning(timeStr).value) <==> Meaning(timeStr).value < TWO_TO_THE_63
    ensures ParseTime(PrintTime(ParseTime(timeStr).value)) == Ok(Meaning(timeStr).value) <==>
      Meaning(timeStr).value < TWO_TO_THE_63
  {
    ReadsWrapped(timeStr);
    ParsePrint(ParseTime(timeStr).value);
    if Meaning(timeStr).value < TWO_TO_THE_63 { WrapFits(Meaning(timeStr).value); }
  }

  /** A number with a unit means their product. */
  lemma MeansProduct(digits: string, unit: string)
    requires digits != "" && AllDigits(digits) && ParseDigits(digits) < TWO_TO_THE_63 && UnitSeconds(unit).Some?
    ensures Meaning(digits + unit) == Some(ParseDigits(digits) * UnitSeconds(unit).value)
  {
    assert !IsDigit(unit[0]);
    DigitPrefixOfDigits(digits, unit);
    assert (digits + unit)[..|digits|] == digits && (digits + unit)[|digits|..] == unit;
    assert IsDigit((digits + unit)[0]) && !IsDigit(NOW[0]);
  }

  /** v1alpha1 to v1beta1 and back keeps every field but the two time texts. A time keeps its meaning exactly when that
      fits 64 bits, and the seconds it was read as exactly when those are not negative. */
  lemma AlphaRoundTrip(a: AlphaSpec)
    requires ToBeta(a).Ok?
    ensures Meaning(a.queryStart).Some? && Meaning(a.queryEnd).Some?
    ensures var back := FromBeta(ToBeta(a).value);
            && back == a.(queryStart := back.queryStart, queryEnd := back.queryEnd)
            && (ParseTime(back.queryStart) == Ok(Meaning(a.queryStart).value) <==>
                  Meaning(a.queryStart).value < TWO_TO_THE_63)
            && (ParseTime(back.queryEnd) == Ok(Meaning(a.queryEnd).value) <==>
                  Meaning(a.queryEnd).value < TWO_TO_THE_63)
            && (ParseTime(back.queryStart) == ParseTime(a.queryStart) <==> ParseTime(a.queryStart).value >= 0)
            && (ParseTime(back.queryEnd) == ParseTime(a.queryEnd) <==> ParseTime(a.queryEnd).value >= 0)
  {
    ReadsWrapped(a.queryStart);
    ReadsWrapped(a.queryEnd);
    KeepsMeaningExactly(a.queryStart);
    KeepsMeaningExactly(a.queryEnd);
    ParsePrint(ParseTime(a.queryStart).value);
    ParsePrint(ParseTime(a.queryEnd).value);
  }

  /** A number with a unit is read as their product, and comes back as it, exactly when the product fits 64 bits. */
  lemma ProductSurvivesExactly(digits: string, unit: string)
    requires digits != "" && AllDigits(digits) && ParseDigits(digits) < TWO_TO_THE_63 && UnitSeconds(unit).Some?
    ensures var product := ParseDigits(digits) * UnitSeconds(unit).value;
            && (ParseTime(digits + unit) == Ok(product) <==> product < TWO_TO_THE_63)
            && ParseTime(digits + unit).Ok?
            && (ParseTime(PrintTime(ParseTime(digits + unit).value)) == Ok(product) <==> product < TWO_TO_THE_63)
  {
    MeansProduct(digits, unit);
    ReadsWrapped(digits + unit);
    KeepsMeaningExactly(digits + unit);
  }

  lemma CountOfMinutes(count: nat)
    requires count < TWO_TO_THE_63
    ensures Meaning(PrintNat(count) + "m") == Some(count * 60)
    ensures ParseTime(PrintNat(count) + "m") == Ok(Wrap64(count * 60))
  {
    ParsePrintNat(count);
    ParseNumberAndUnit(PrintNat(count), "m");
    MeansProduct(PrintNat(count), "m");
  }

  /** The largest 64-bit count of minutes wraps to minus one minute and comes back as "now". */
  lemma WrappedProductIsLost()
    ensures var text := PrintNat(TWO_TO_THE_63 - 1) + "m";
            ParseTime(text) == Ok(-60) && PrintTime(-60) == NOW && ParseTime(PrintTime(-60)) == Ok(0)
  {
    CountOfMinutes(TWO_TO_THE_63 - 1);
  }

  const MISREAD_MINUTES: nat := 307445734561825861

  lemma MisreadMinutes(count: nat)
    requires count == MISREAD_MINUTES
    ensures count < TWO_TO_THE_63 && Wrap64(count * 60) == 44
  {
  }

  lemma ReadComesBack(timeStr: string)
    requires ParseTime(timeStr).Ok? && ParseTime(timeStr).value >= 0
    ensures ParseTime(PrintTime(ParseTime(timeStr).value)) == ParseTime(timeStr)
  {
    ParsePrint(ParseTime(timeStr).value);
  }

  /** A smaller count of minutes is read as 44 seconds, which then come back unnoticed. */
  lemma WrappedProductIsMisread(count: nat)
    requires count == MISREAD_MINUTES
    ensures var text := PrintNat(count) + "m";
            && Meaning(text) == Some(count * 60)
            && ParseTime(text) == Ok(44)
            && ParseTime(PrintTime(ParseTime(text).value)) == ParseTime(text)
  {
    MisreadMinutes(count);
    CountOfMinutes(count);
    ReadComesBack(PrintNat(count) + "m");
  }

  /** One trip reaches a fixed point. */
  lemma AlphaStable(a: AlphaSpec)
    requires ToBeta(a).Ok?
    ensures var back := FromBeta(ToBeta(a).value);
            ToBeta(back).Ok? && FromBeta(ToBeta(back).value) == back
  {
    ParsePrint(ParseTime(a.queryStart).value);
    ParsePrint(ParseTime(a.queryEnd).value);
  }

  /** Which v1beta1 specs v1alpha1 can express. */
  lemma BetaRoundTrip(b: BetaSpec)
    ensures ToBeta(FromBeta(b)) == Ok(b) <==>
      && b.queryTimestampType.EventTimestamp?
      && b.maxWaitTimeSeconds == 0
      && b.searchIntervalSeconds >= 0
      && b.searchIntervalOffsetSeconds.Some? && b.searchIntervalOffsetSeconds.value >= 0
      && b.backfillLimit.Some?
  {
    ParsePrint(b.searchIntervalSeconds);
    if b.searchIntervalOffsetSeconds.Some? { ParsePrint(b.searchIntervalOffsetSeconds.value); }
  }

  class BetaSearch {
    var spec: BetaSpec
    constructor (spec: BetaSpec)
      ensures this.spec == spec
    { this.spec := spec; }
  }

  /** The destination once every field but the two times is assigned. */
  function WithoutTimes(src: AlphaSpec, dst: BetaSpec): BetaSpec {
    BetaSpec(src.managedClusterName, src.externalClusterName, src.name, src.viewName, src.queryString, src.description,
             dst.maxWaitTimeSeconds, EventTimestamp, dst.searchIntervalSeconds, dst.searchIntervalOffsetSeconds,
             src.schedule, src.timeZone, Some(src.backfillLimit), src.enabled, src.actions, src.labels)
  }

  class AlphaSearch {
    var spec: AlphaSpec

    constructor (spec: AlphaSpec)
      ensures this.spec == spec
    { this.spec := spec; }

    /** Fills `dst` in place. On a bad time string the two times of `dst` keep what they held before. */
    method ConvertTo(dst: BetaSearch) returns (r: Result<(), string>)
      modifies dst
      ensures r.Ok? <==> ToBeta(spec).Ok?
      ensures r.Ok? ==> dst.spec == ToBeta(spec).value.(maxWaitTimeSeconds := old(dst.spec.maxWaitTimeSeconds))
      ensures r.Err? ==> dst.spec == WithoutTimes(spec, old(dst.spec))
    {
      dst.spec := dst.spec.(
        managedClusterName := spec.managedClusterName,
        externalClusterName := spec.externalClusterName,
        name := spec.name,
        viewName := spec.viewName,
        queryString := spec.queryString,
        description := spec.description,
        backfillLimit := Some(spec.backfillLimit),
        queryTimestampType := EventTimestamp,
        schedule := spec.schedule,
        timeZone := spec.timeZone,
        enabled := spec.enabled,
        actions := spec.actions,
        labels := spec.labels);
      var start := ParseTimeStringToSeconds(spec.queryStart);
      if start.Err? { return Err(start.error); }
      var end := ParseTimeStringToSeconds(spec.queryEnd);
      if end.Err? { return Err(end.error); }
      dst.spec := dst.spec.(searchIntervalOffsetSeconds := Some(end.value), searchIntervalSeconds := start.value);
      return Ok(());
    }

    method ConvertFrom(src: BetaSearch)
      modifies this
      ensures spec == FromBeta(src.spec)
    {
      spec := spec.(
        managedClusterName := src.spec.managedClusterName,
        externalClusterName := src.spec.externalClusterName,
        name := src.spec.name,
        viewName := src.spec.viewName,
        queryString := src.spec.queryString,
        description := src.spec.description,
        schedule := src.spec.schedule,
        timeZone := src.spec.timeZone);
      var backfill := 0;
      if src.spec.backfillLimit.Some? { backfill := src.spec.backfillLimit.value; }
      spec := spec.(
        backfillLimit := backfill,
        enabled := src.spec.enabled,
        actions := src.spec.actions,
        labels := src.spec.labels);
      var start := ParseSecondsToString(src.spec.searchIntervalSeconds);
      spec := spec.(queryStart := start, queryEnd := NOW);
      match src.spec.searchIntervalOffsetSeconds
      case Some(offset) =>
        if offset > 0 {
          var end := ParseSecondsToString(offset);
          spec := spec.(queryEnd := end);
        }
      case None =>
    }
  }
}
