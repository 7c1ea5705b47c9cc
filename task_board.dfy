/** The task board's day index, the visible-range report of its horizontal
    list, and the duration badge (src/components/planner/PlannerTaskBoard.tsx). */
module TaskBoard {
  import opened Common

  /** A day column; only its key is looked at. */
  datatype Day = Day(key: string, weekday: string, monthText: string, dayNumber: int)

  // ---------------------------------------------------------------------
  // dayIndexMap

  /** Each day key mapped to its index; when a key repeats, the last index
      wins. */
  function DayIndexMap(days: seq<Day>): map<string, nat>
  {
    if days == [] then map[]
    else DayIndexMap(days[..|days| - 1])[days[|days| - 1].key := |days| - 1]
  }

  /** The map's keys are the day keys, and each maps to the last index
      holding it. */
  lemma {:induction false} DayIndexMapSpec(days: seq<Day>)
    ensures forall k :: k in DayIndexMap(days) <==> exists i :: 0 <= i < |days| && days[i].key == k
    ensures forall k :: k in DayIndexMap(days) ==> DayIndexMap(days)[k] < |days| && days[DayIndexMap(days)[k]].key == k
    ensures forall k, j :: k in DayIndexMap(days) && DayIndexMap(days)[k] < j < |days| ==> days[j].key != k
  {
    if days != [] {
      var front := days[..|days| - 1];
      DayIndexMapSpec(front);
      assert forall i :: 0 <= i < |front| ==> front[i] == days[i];
    }
  }

  /** The `forEach` that fills the map. */
  method BuildDayIndexMap(days: seq<Day>) returns (m: map<string, nat>)
    ensures m == DayIndexMap(days)
  {
    m := map[];
    for i := 0 to |days|
      invariant m == DayIndexMap(days[..i])
    {
      assert days[..i + 1][..i] == days[..i];
      m := m[days[i].key := i];
    }
    assert days[..|days|] == days;
  }

  lemma DayIndexMapBound(days: seq<Day>)
    ensures forall k :: k in DayIndexMap(days) ==> DayIndexMap(days)[k] < |days|
  {
    DayIndexMapSpec(days);
  }

  // ---------------------------------------------------------------------
  // handleViewableItemsChanged

  /** A viewable token's key: a string, a number, or anything else. */
  datatype TokenKey = StringKey(s: string) | NumberKey(n: int) | OtherKey

  /** The key as a day key: `String(key)` for strings and numbers, nothing
      when that is empty or the key is of another type. */
  function TokenDayKey(key: TokenKey): (r: Option<string>)
    ensures r.Some? ==> r.value != ""
    ensures key.StringKey? ==> (r.Some? <==> key.s != "")
    ensures key.NumberKey? ==> r == Some(IntToString(key.n))
    ensures key.OtherKey? ==> r.None?
  {
    match key
    case StringKey(s) => if s == "" then None else Some(s)
    case NumberKey(n) => Some(IntToString(n))
    case OtherKey => None
  }

  /** The index of a token's day, when the token names a known day. */
  function TokenIndex(key: TokenKey, index: map<string, nat>): Option<nat>
  {
    var k := TokenDayKey(key);
    if k.Some? && k.value in index then Some(index[k.value]) else None
  }

  /** The indices of the visible days, in token order. */
  function KnownIndices(keys: seq<TokenKey>, index: map<string, nat>): seq<nat>
  {
    if keys == [] then []
    else KnownIndices(keys[..|keys| - 1], index) + (match TokenIndex(keys[|keys| - 1], index) case Some(i) => [i] case None => [])
  }

  /** The indices are exactly those of the tokens that name a known day. */
  lemma {:induction false} KnownIndicesSpec(keys: seq<TokenKey>, index: map<string, nat>)
    ensures forall i :: i in KnownIndices(keys, index) <==> exists t :: 0 <= t < |keys| && TokenIndex(keys[t], index) == Some(i)
  {
    if keys != [] {
      var front := keys[..|keys| - 1];
      KnownIndicesSpec(front, index);
      assert forall t :: 0 <= t < |front| ==> front[t] == keys[t];
    }
  }

  /** `lo` and `hi` are the least and greatest of `ks`, or the starting
      values while `ks` is empty. */
  predicate Brackets(ks: seq<nat>, lo: int, hi: int, infinity: int)
  {
    (ks == [] ==> lo == infinity && hi == -1)
    && (ks != [] ==> lo in ks && hi in ks && forall i :: i in ks ==> lo <= i <= hi)
  }

  /** One more index moves the bounds as the loop does. */
  lemma BracketsExtend(ks: seq<nat>, lo: int, hi: int, infinity: int, i: nat)
    requires Brackets(ks, lo, hi, infinity) && i < infinity
    ensures Brackets(ks + [i], if i < lo then i else lo, if i > hi then i else hi, infinity)
  {
  }

  lemma KnownIndicesStep(keys: seq<TokenKey>, t: nat, index: map<string, nat>)
    requires t < |keys|
    ensures KnownIndices(keys[..t + 1], index)
            == KnownIndices(keys[..t], index) + (match TokenIndex(keys[t], index) case Some(i) => [i] case None => [])
  {
    assert keys[..t + 1][..t] == keys[..t];
  }

  /** The range reported to `onVisibleRangeChange`: nothing without the
      callback or without a visible known day; otherwise the first and last
      visible days, which bracket every visible known day. */
  method VisibleRange(days: seq<Day>, hasCallback: bool, keys: seq<TokenKey>) returns (range: Option<(Day, Day)>)
    ensures !hasCallback ==> range.None?
    ensures hasCallback ==> (range.None? <==> KnownIndices(keys, DayIndexMap(days)) == [])
    ensures range.Some? ==>
              var ks := KnownIndices(keys, DayIndexMap(days));
              exists lo, hi :: 0 <= lo <= hi < |days| && lo in ks && hi in ks
                               && range.value == (days[lo], days[hi])
                               && (forall i :: i in ks ==> lo <= i <= hi)
  {
    if !hasCallback {
      return None;
    }
    var index := DayIndexMap(days);
    DayIndexMapBound(days);
    var minIndex: int := |days|;  // stands for +infinity: above every index
    var maxIndex: int := -1;
    for t := 0 to |keys|
      invariant Brackets(KnownIndices(keys[..t], index), minIndex, maxIndex, |days|)
      invariant 0 <= minIndex <= |days| && -1 <= maxIndex < |days|
    {
      KnownIndicesStep(keys, t, index);
      var k := TokenDayKey(keys[t]);
      if k.None? {
        continue;
      }
      if k.value !in index {
        continue;
      }
      var i := index[k.value];
      BracketsExtend(KnownIndices(keys[..t], index), minIndex, maxIndex, |days|, i);
      if i < minIndex {
        minIndex := i;
      }
      if i > maxIndex {
        maxIndex := i;
      }
    }
    assert keys[..|keys|] == keys;
    if minIndex == |days| || maxIndex == -1 {
      return None;
    }
    assert minIndex in KnownIndices(keys, index) && maxIndex in KnownIndices(keys, index);
    range := Some((days[minIndex], days[maxIndex]));
  }

  // ---------------------------------------------------------------------
  // formatDuration and the badge

  /** JavaScript's `%`, which truncates toward zero. */
  function JsRem(a: int, b: int): (r: int)
    requires b > 0
    ensures a >= 0 ==> r == a % b
    ensures a < 0 ==> r == -((-a) % b)
    ensures -b < r < b
    ensures a >= 0 ==> r >= 0
    ensures a < 0 ==> r <= 0
  {
    if a >= 0 then a % b else -((-a) % b)
  }

  /** `padStart(2, "0")` */
  function PadTwo(s: string): (r: string)
    ensures |s| >= 2 ==> r == s
    ensures |s| < 2 ==> |r| == 2 && r[2 - |s|..] == s && forall i :: 0 <= i < 2 - |s| ==> r[i] == '0'
  {
    if |s| >= 2 then s else seq(2 - |s|, _ => '0') + s
  }

  /** `formatDuration` over whole minutes: nothing for zero, else hours and
      two-digit minutes. */
  function FormatDuration(minutes: int): Option<string>
  {
    if minutes == 0 then None
    else Some(IntToString(minutes / 60) + ":" + PadTwo(IntToString(JsRem(minutes, 60))))
  }

  lemma {:induction false} SmallNatToString(n: nat)
    requires n < 100
    ensures |NatToString(n)| <= 2
  {
    if n >= 10 {
      assert NatToString(n) == NatToString(n / 10) + [DigitChar(n % 10)];
    }
  }

  /** Leading zeros do not change a number's value. */
  lemma {:induction false} LeadingZero(s: string)
    requires forall i :: 0 <= i < |s| ==> IsDigit(s[i])
    ensures forall i :: 0 <= i < |"0" + s| ==> IsDigit(("0" + s)[i])
    ensures DigitsValue("0" + s) == DigitsValue(s)
  {
    if s != [] {
      var t := "0" + s;
      assert t[..|t| - 1] == "0" + s[..|s| - 1];
      LeadingZero(s[..|s| - 1]);
    }
  }

  /** For positive minutes the text reads back as the hours and the minutes
      within the hour, which add up to the input; zero gives nothing. */
  lemma FormatDurationSpec(minutes: nat)
    ensures minutes == 0 ==> FormatDuration(minutes).None?
    ensures minutes > 0 ==>
              exists h, mm :: FormatDuration(minutes) == Some(h + ":" + mm)
                              && |mm| == 2
                              && (forall i :: 0 <= i < |h| ==> IsDigit(h[i]))
                              && (forall i :: 0 <= i < 2 ==> IsDigit(mm[i]))
                              && DigitsValue(mm) < 60
                              && DigitsValue(h) * 60 + DigitsValue(mm) == minutes
  {
    if minutes > 0 {
      var h := NatToString(minutes / 60);
      var m := NatToString(minutes % 60);
      var mm := PadTwo(m);
      SmallNatToString(minutes % 60);
      DigitsValueOfNatToString(minutes / 60);
      DigitsValueOfNatToString(minutes % 60);
      if |m| < 2 {
        assert mm == "0" + m;
        LeadingZero(m);
      }
      assert FormatDuration(minutes) == Some(h + ":" + mm);
    }
  }

  /** 90 minutes read "1:30". */
  lemma FormatNinetyMinutes()
    ensures FormatDuration(90) == Some("1:30")
  {
    assert JsRem(90, 60) == 30;
    assert IntToString(90 / 60) == "1";
    assert IntToString(30) == "30";
    assert PadTwo("30") == "30";
    assert "1" + ":" + "30" == "1:30";
    assert FormatDuration(90) == Some(IntToString(90 / 60) + ":" + PadTwo(IntToString(JsRem(90, 60))));
  }

  /** Minutes under ten are padded: 5 minutes read "0:05". */
  lemma FormatFiveMinutes()
    ensures FormatDuration(5) == Some("0:05")
  {
    assert JsRem(5, 60) == 5;
    assert IntToString(5 / 60) == "0";
    assert IntToString(5) == "5";
    assert PadTwo("5") == "05";
    assert "0" + ":" + "05" == "0:05";
    assert FormatDuration(5) == Some(IntToString(5 / 60) + ":" + PadTwo(IntToString(JsRem(5, 60))));
  }

  /** The minutes a task card shows: the measured duration, else the
      estimate (`??` keeps a zero); the badge text only when non-zero. */
  function BadgeDuration(metricsMinutes: Option<int>, estimateMinutes: Option<int>): (d: Option<int>)
    ensures metricsMinutes.Some? ==> d == metricsMinutes
    ensures metricsMinutes.None? ==> d == estimateMinutes
  {
    Coalesce(metricsMinutes, estimateMinutes)
  }

  function BadgeText(metricsMinutes: Option<int>, estimateMinutes: Option<int>): Option<string>
  {
    var d := BadgeDuration(metricsMinutes, estimateMinutes);
    if d.Some? && d.value != 0 then FormatDuration(d.value) else None
  }

  /** A badge appears exactly when the chosen duration is non-zero, and a
      measured duration of zero hides the estimate rather than falling back
      to it. */
  lemma BadgeTextSpec(metricsMinutes: Option<int>, estimateMinutes: Option<int>)
    ensures BadgeText(metricsMinutes, estimateMinutes).Some?
            <==> (metricsMinutes.Some? && metricsMinutes.value != 0)
                 || (metricsMinutes.None? && estimateMinutes.Some? && estimateMinutes.value != 0)
    ensures metricsMinutes == Some(0) ==> BadgeText(metricsMinutes, estimateMinutes).None?
  {
  }
}
