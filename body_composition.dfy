/**
 * The transform stage of the sync script: every body-composition sample
 * whose bone mass is present becomes one spreadsheet row, in input order;
 * samples without bone mass are dropped. Masses arrive in grams and are
 * written in kilograms; bmi, body fat and body water are copied as they are.
 */
module BodyComposition {
  import opened Wrappers
  import DateFormat

  /** One entry of the fetched `dateWeightList`. */
  datatype Sample = Sample(
    date: int,                // epoch milliseconds
    weight: Option<real>,     // grams
    bmi: Option<real>,
    bodyFat: Option<real>,
    bodyWater: Option<real>,
    boneMass: Option<real>,   // grams
    muscleMass: Option<real>) // grams

  /** The 7-tuple appended to `result`. */
  datatype Row = Row(
    date: string,             // dd.mm.yyyy
    weight: real,             // kilograms
    bmi: Option<real>,
    bodyFat: Option<real>,
    bodyWater: Option<real>,
    boneMass: real,           // kilograms
    muscleMass: real)         // kilograms

  /**
   * Why building a row raised: the timestamp lies outside the printable
   * years, or a mass that is divided by 1000 is None.
   */
  datatype RowError = DateOutOfRange(ms: int) | MissingWeight | MissingMuscleMass

  function Kilograms(grams: real): real {
    grams / 1000.0
  }

  /**
   * The row built from one sample with bone mass, or the error the tuple
   * raises first: its fields are evaluated date, weight, bmi, body fat,
   * body water, bone mass, muscle mass.
   */
  function ToRow(s: Sample, offset: int): (r: Result<Row, RowError>)
    requires s.boneMass.Some?
    ensures r.Success? <==>
      DateFormat.DateString(s.date, offset).Some? && s.weight.Some? && s.muscleMass.Some?
    ensures r.Failure? ==>
      (r.error == if DateFormat.DateString(s.date, offset).None? then DateOutOfRange(s.date)
                  else if s.weight.None? then MissingWeight
                  else MissingMuscleMass)
    ensures r.Success? ==>
      DateFormat.ParseDate(r.value.date) == Some(DateFormat.LocalDate(s.date, offset)) &&
      r.value.date == DateFormat.FormatDate(DateFormat.LocalDate(s.date, offset)) &&
      r.value.weight * 1000.0 == s.weight.value &&
      r.value.boneMass * 1000.0 == s.boneMass.value &&
      r.value.muscleMass * 1000.0 == s.muscleMass.value &&
      r.value.bmi == s.bmi && r.value.bodyFat == s.bodyFat && r.value.bodyWater == s.bodyWater
  {
    match DateFormat.DateString(s.date, offset)
    case None => Failure(DateOutOfRange(s.date))
    case Some(date) =>
      if s.weight.None? then Failure(MissingWeight)
      else if s.muscleMass.None? then Failure(MissingMuscleMass)
      else Success(Row(date, Kilograms(s.weight.value), s.bmi, s.bodyFat, s.bodyWater,
                       Kilograms(s.boneMass.value), Kilograms(s.muscleMass.value)))
  }

  /**
   * The rows the loop has built after the samples `s`, or the error that
   * stopped it. Defined from the last sample so that it follows the loop.
   */
  function Rows(s: seq<Sample>, offset: int): (r: Result<seq<Row>, RowError>)
    ensures r.Success? ==> |r.value| <= |s|
  {
    if s == [] then Success([])
    else
      match Rows(s[..|s| - 1], offset)
      case Failure(e) => Failure(e)
      case Success(rows) =>
        var last := s[|s| - 1];
        if last.boneMass.None? then Success(rows)
        else
          match ToRow(last, offset)
          case Failure(e) => Failure(e)
          case Success(row) => Success(rows + [row])
  }

  /** Positions of the samples that have a bone mass, in increasing order. */
  function Kept(s: seq<Sample>): (idx: seq<nat>)
    ensures forall k :: 0 <= k < |idx| ==> idx[k] < |s| && s[idx[k]].boneMass.Some?
    ensures forall j :: 0 <= j < |s| && s[j].boneMass.Some? ==> j in idx
    ensures forall k, l :: 0 <= k < l < |idx| ==> idx[k] < idx[l]
  {
    if s == [] then []
    else if s[|s| - 1].boneMass.None? then Kept(s[..|s| - 1])
    else Kept(s[..|s| - 1]) + [|s| - 1]
  }

  /**
   * On success there is one row per sample with bone mass, built from that
   * sample, in the order of the samples; samples without bone mass give none.
   */
  lemma {:induction false} RowsAreKeptSamples(s: seq<Sample>, offset: int)
    requires Rows(s, offset).Success?
    ensures |Rows(s, offset).value| == |Kept(s)|
    ensures forall k :: 0 <= k < |Kept(s)| ==>
      ToRow(s[Kept(s)[k]], offset) == Success(Rows(s, offset).value[k])
  {
    if s != [] {
      var init, last := s[..|s| - 1], s[|s| - 1];
      RowsAreKeptSamples(init, offset);
      var rows, before := Rows(s, offset).value, Rows(init, offset).value;
      var kept, keptBefore := Kept(s), Kept(init);
      if last.boneMass.None? {
        assert rows == before && kept == keptBefore;
      } else {
        assert rows == before + [ToRow(last, offset).value];
        assert kept == keptBefore + [|s| - 1];
      }
      forall k | 0 <= k < |kept|
        ensures ToRow(s[kept[k]], offset) == Success(rows[k])
      {
        if k < |keptBefore| {
          assert kept[k] == keptBefore[k] && rows[k] == before[k];
          assert s[kept[k]] == init[keptBefore[k]];
        }
      }
    }
  }

  /** Every sample with bone mass has a row that does not raise. */
  predicate AllConvert(s: seq<Sample>, offset: int) {
    forall j :: 0 <= j < |s| && s[j].boneMass.Some? ==> ToRow(s[j], offset).Success?
  }

  /** One more sample: the build still succeeds exactly when that sample is dropped or converts. */
  lemma RowsStep(s: seq<Sample>, offset: int)
    requires s != []
    ensures Rows(s, offset).Success? <==>
      Rows(s[..|s| - 1], offset).Success? &&
      (s[|s| - 1].boneMass.Some? ==> ToRow(s[|s| - 1], offset).Success?)
  {
  }

  lemma AllConvertStep(s: seq<Sample>, offset: int)
    requires s != []
    ensures AllConvert(s, offset) <==>
      AllConvert(s[..|s| - 1], offset) &&
      (s[|s| - 1].boneMass.Some? ==> ToRow(s[|s| - 1], offset).Success?)
  {
    var init := s[..|s| - 1];
    assert forall j :: 0 <= j < |init| ==> init[j] == s[j];
  }

  /** The loop finishes without error exactly when every sample with bone mass converts. */
  lemma {:induction false} RowsSucceed(s: seq<Sample>, offset: int)
    ensures Rows(s, offset).Success? <==> AllConvert(s, offset)
  {
    if s != [] {
      RowsSucceed(s[..|s| - 1], offset);
      RowsStep(s, offset);
      AllConvertStep(s, offset);
    }
  }

  /** An error is the one raised by the first sample with bone mass that does not convert. */
  lemma {:induction false} RowsFirstError(s: seq<Sample>, offset: int)
    requires Rows(s, offset).Failure?
    ensures exists j :: (0 <= j < |s| && s[j].boneMass.Some? &&
      ToRow(s[j], offset) == Failure(Rows(s, offset).error) &&
      forall i :: 0 <= i < j && s[i].boneMass.Some? ==> ToRow(s[i], offset).Success?)
  {
    var init := s[..|s| - 1];
    assert forall i :: 0 <= i < |init| ==> init[i] == s[i];
    if Rows(init, offset).Failure? {
      RowsFirstError(init, offset);
      var j :| 0 <= j < |init| && init[j].boneMass.Some? &&
        ToRow(init[j], offset) == Failure(Rows(init, offset).error) &&
        forall i :: 0 <= i < j && init[i].boneMass.Some? ==> ToRow(init[i], offset).Success?;
      assert s[j] == init[j];
    } else {
      RowsSucceed(init, offset);
      assert s[|s| - 1].boneMass.Some? && ToRow(s[|s| - 1], offset) == Failure(Rows(s, offset).error);
    }
  }

  /** Once an error is raised, later samples do not matter. */
  lemma {:induction false} FailureStops(s: seq<Sample>, i: nat, offset: int)
    requires i <= |s| && Rows(s[..i], offset).Failure?
    ensures Rows(s, offset) == Rows(s[..i], offset)
    decreases |s| - i
  {
    if i < |s| {
      assert s[..i + 1][..i] == s[..i];
      FailureStops(s, i + 1, offset);
    } else {
      assert s[..i] == s;
    }
  }

  /**
   * The loop over `weightList`: appends one row per sample with bone mass
   * to `result`, stopping at the first sample whose row raises.
   */
  method BuildRows(samples: seq<Sample>, offset: int) returns (res: Result<seq<Row>, RowError>)
    ensures res == Rows(samples, offset)
    ensures res.Success? ==> (|res.value| == |Kept(samples)| &&
      forall k :: 0 <= k < |res.value| ==>
        ToRow(samples[Kept(samples)[k]], offset) == Success(res.value[k]))
  {
    var result: seq<Row> := [];
    var i := 0;
    while i < |samples|
      invariant 0 <= i <= |samples|
      invariant Rows(samples[..i], offset) == Success(result)
    {
      var item := samples[i];
      assert samples[..i + 1][..i] == samples[..i];
      if item.boneMass.Some? {
        match ToRow(item, offset)
        case Failure(e) =>
          FailureStops(samples, i + 1, offset);
          return Failure(e);
        case Success(row) =>
          result := result + [row];
      }
      i := i + 1;
    }
    assert samples[..i] == samples;
    res := Success(result);
    RowsAreKeptSamples(samples, offset);
  }

  /** The sample of the worked example: 2000-01-01, 70 kg, bone 3 kg, muscle 32 kg. */
  lemma ExampleRow()
    ensures ToRow(Sample(946684800000, Some(70000.0), Some(22.1), Some(15.0), Some(55.0),
                         Some(3000.0), Some(32000.0)), 0)
         == Success(Row("01.01.2000", 70.0, Some(22.1), Some(15.0), Some(55.0), 3.0, 32.0))
  {
    DateFormat.Millennium();
  }
}
