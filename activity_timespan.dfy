/**
 * The `timespan` capability of a timeline activity: start and duration
 * are stored in the activity's model (in milliseconds from an epoch), the
 * end is derived from them, and the three setters write the model through
 * the mutation capability, clamping what they write at 0.
 */
module ActivityTimespan {
  import opened Base

  /** The two stored quantities of an activity's time span. */
  datatype Span = Span(start: int, duration: int)

  /** The end time: start plus duration. */
  function End(s: Span): int {
    s.start + s.duration
  }

  function Max(a: int, b: int): int {
    if a < b then b else a
  }

  /**
   * `setStart(v)`: start becomes `max(v, 0)` and the duration is chosen so
   * that the old end is kept, clamped at 0.
   */
  function AfterSetStart(s: Span, v: int): (r: Span)
    ensures r.start >= 0 && r.duration >= 0
    ensures v >= 0 ==> r.start == v
    ensures 0 <= v <= End(s) ==> End(r) == End(s)
    ensures v > End(s) ==> r.duration == 0
  {
    Span(Max(v, 0), Max(End(s) - v, 0))
  }

  /** `setDuration(v)`: duration becomes `max(v, 0)`; start is kept. */
  function AfterSetDuration(s: Span, v: int): (r: Span)
    ensures r.start == s.start && r.duration >= 0
    ensures v >= 0 ==> End(r) == s.start + v
    ensures v < 0 ==> End(r) == s.start
  {
    Span(s.start, Max(v, 0))
  }

  /** `setEnd(v)`: duration becomes `max(v - start, 0)`; start is kept. */
  function AfterSetEnd(s: Span, v: int): (r: Span)
    ensures r.start == s.start && r.duration >= 0
    ensures v >= s.start ==> End(r) == v
    ensures v < s.start ==> End(r) == s.start
  {
    Span(s.start, Max(v - s.start, 0))
  }

  /**
   * A negative start is clamped to 0 but the duration is computed from the
   * unclamped value, so the end moves later by `-v`.
   */
  lemma NegativeStartMovesEnd(s: Span, v: int)
    requires v < 0 && End(s) >= 0
    ensures AfterSetStart(s, v).start == 0
    ensures End(AfterSetStart(s, v)) == End(s) - v
  {
    var r := AfterSetStart(s, v);
    assert r == Span(0, End(s) - v);
  }

  /** Setting the end a span already has changes nothing, once its duration is non-negative. */
  lemma SetEndToOwnEnd(s: Span)
    requires s.duration >= 0
    ensures AfterSetEnd(s, End(s)) == s
  {
  }

  /** Moving the start within [0, end] and then restoring the end gives back that end with the new start. */
  lemma SetStartThenEnd(s: Span, v: int, e: int)
    requires 0 <= v <= e
    ensures AfterSetEnd(AfterSetStart(s, v), e) == Span(v, e - v)
  {
  }

  /**
   * The capability over one activity's model.  `epoch` is the model's
   * `start.epoch`, which no setter writes.  `timestamps` logs the
   * timestamp argument of each call to the mutation capability; the
   * mutation stamps `modified` with it, or with the clock `now` when
   * there is none.
   */
  class ActivityTimespan {
    var start: int
    var duration: int
    const epoch: string
    var modified: Option<int>
    var timestamps: seq<Option<int>>

    constructor (start: int, duration: int, epoch: string, modified: Option<int>)
      ensures this.start == start && this.duration == duration
      ensures this.epoch == epoch && this.modified == modified && timestamps == []
    {
      this.start := start;
      this.duration := duration;
      this.epoch := epoch;
      this.modified := modified;
      timestamps := [];
    }

    function Current(): Span
      reads this
    {
      Span(start, duration)
    }

    /** The start of the current span. */
    function GetStart(): (r: int)
      reads this
      ensures r == Current().start
    {
      start
    }

    /** The duration of the current span; the end is always the start plus this. */
    function GetDuration(): (r: int)
      reads this
      ensures r == Current().duration && GetStart() + r == GetEnd()
    {
      duration
    }

    /** The end of the current span, the quantity the setters' lemmas speak of. */
    function GetEnd(): (r: int)
      reads this
      ensures r == End(Current())
    {
      start + duration
    }

    /** The epoch; `epoch` is a constant field, so no setter can change it. */
    function GetEpoch(): (r: string)
      ensures r == epoch
    {
      epoch
    }

    /** Mutate the model, passing the current `modified` as the timestamp. */
    method Write(s: Span, now: int)
      modifies this
      ensures Current() == s
      ensures modified == Some(old(modified).GetOr(now))
      ensures timestamps == old(timestamps) + [old(modified)]
    {
      start, duration := s.start, s.duration;
      timestamps := timestamps + [modified];
      modified := Some(modified.GetOr(now));
    }

    method SetStart(value: int, now: int)
      modifies this
      ensures Current() == AfterSetStart(old(Current()), value)
      ensures modified == Some(old(modified).GetOr(now))
      ensures timestamps == old(timestamps) + [old(modified)]
    {
      var end := GetEnd();
      Write(Span(Max(value, 0), Max(end - value, 0)), now);
    }

    method SetDuration(value: int, now: int)
      modifies this
      ensures Current() == AfterSetDuration(old(Current()), value)
      ensures modified == Some(old(modified).GetOr(now))
      ensures timestamps == old(timestamps) + [old(modified)]
    {
      Write(Span(start, Max(value, 0)), now);
    }

    method SetEnd(value: int, now: int)
      modifies this
      ensures Current() == AfterSetEnd(old(Current()), value)
      ensures modified == Some(old(modified).GetOr(now))
      ensures timestamps == old(timestamps) + [old(modified)]
    {
      var s := GetStart();
      Write(Span(s, Max(value - s, 0)), now);
    }
  }
}
