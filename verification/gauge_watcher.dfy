/** The decision logic of the one-shot file watcher (`start_gauge_watcher`).
    The watcher reads the library's modification time once at start, then
    polls it; the time source is a sequence of poll observations, and the
    sleeps between polls are not modelled. */
module GaugeWatcher {
  import opened Wrappers

  /** One `last_write_time` call: it failed, or it returned a time stamp. */
  datatype Poll = StatError | Stamp(time: int)

  /** `file_time_type::min()`: the stamp a failed `last_write_time` call
      returns, the smallest 64-bit tick count. */
  const MinFileTime: int := -0x8000_0000_0000_0000

  /** The stamp the watcher starts from. A failed first call yields the
      minimum time value `minTime`, and the watcher carries on with it. */
  function InitialStamp(first: Poll, minTime: int): (t: int)
    ensures first.Stamp? ==> t == first.time
    ensures first.StatError? ==> t == minTime
  {
    match first
    case Stamp(time) => time
    case StatError => minTime
  }

  /** Poll `i` succeeded and saw a stamp other than `initial`. */
  predicate ChangedAt(initial: int, polls: seq<Poll>, i: int) {
    0 <= i < |polls| && polls[i].Stamp? && polls[i].time != initial
  }

  /** The index of the poll at which the reload fires: the first successful
      poll whose stamp differs from `initial`; none while no such poll has
      been seen (the watcher keeps polling). */
  function FirstChange(initial: int, polls: seq<Poll>): (r: Option<nat>)
    ensures r.Some? ==> ChangedAt(initial, polls, r.value)
    ensures r.Some? ==> forall j :: 0 <= j < r.value ==> !ChangedAt(initial, polls, j)
    ensures r.None? ==> forall j :: 0 <= j < |polls| ==> !ChangedAt(initial, polls, j)
  {
    if |polls| == 0 then None
    else if polls[0].Stamp? && polls[0].time != initial then Some(0)
    else
      match FirstChange(initial, polls[1..])
      case Some(i) =>
        assert forall j :: 1 <= j <= i ==> (ChangedAt(initial, polls, j) <==> ChangedAt(initial, polls[1..], j - 1));
        Some(i + 1)
      case None =>
        assert forall j :: 1 <= j < |polls| ==> (ChangedAt(initial, polls, j) <==> ChangedAt(initial, polls[1..], j - 1));
        None
  }

  /** The watcher loop: skips failed polls, keeps polling while the stamp is
      unchanged, and stops at the first change, reporting where it fired. */
  method Watch(initial: int, polls: seq<Poll>) returns (fired: Option<nat>)
    ensures fired == FirstChange(initial, polls)
    ensures fired.Some? ==> polls[fired.value].Stamp? && polls[fired.value].time != initial
    ensures fired.None? <==> forall j :: 0 <= j < |polls| ==> polls[j].StatError? || polls[j].time == initial
  {
    var i := 0;
    while i < |polls|
      invariant 0 <= i <= |polls|
      invariant forall j :: 0 <= j < i ==> !ChangedAt(initial, polls, j)
    {
      match polls[i]
      case StatError =>
        i := i + 1;
      case Stamp(current) =>
        if current != initial {
          assert ChangedAt(initial, polls, i);
          assert FirstChange(initial, polls) == Some(i);
          return Some(i);
        }
        i := i + 1;
    }
    forall j | 0 <= j < |polls|
      ensures polls[j].StatError? || polls[j].time == initial
    {
      assert !ChangedAt(initial, polls, j);
    }
    return None;
  }

  /** The decision is final: once the reload has fired, later observations
      do not move it; while it has not, it is decided by later ones alone. */
  lemma {:induction false} FirstChangeExtends(initial: int, polls: seq<Poll>, more: seq<Poll>)
    ensures FirstChange(initial, polls).Some? ==> FirstChange(initial, polls + more) == FirstChange(initial, polls)
    ensures FirstChange(initial, polls).None? ==>
      FirstChange(initial, polls + more) ==
        (match FirstChange(initial, more)
         case Some(k) => Some(|polls| + k)
         case None => None)
  {
    if |polls| > 0 {
      assert (polls + more)[1..] == polls[1..] + more;
      FirstChangeExtends(initial, polls[1..], more);
    } else {
      assert polls + more == more;
    }
  }

  /** A watcher never fires while every poll fails or sees the initial stamp. */
  lemma {:induction false} NoChangeNoReload(initial: int, polls: seq<Poll>)
    requires forall j :: 0 <= j < |polls| ==> polls[j] == StatError || polls[j] == Stamp(initial)
    ensures FirstChange(initial, polls) == None
  {
    if |polls| > 0 {
      NoChangeNoReload(initial, polls[1..]);
    }
  }

  /** When the first read failed, the watcher fires at the first successful
      poll, unless that poll reports the minimum time itself. */
  lemma {:induction false} FailedFirstReadFiresAtFirstSuccess(polls: seq<Poll>, i: nat)
    requires i < |polls| && polls[i].Stamp? && polls[i].time != MinFileTime
    requires forall j :: 0 <= j < i ==> polls[j].StatError?
    ensures FirstChange(InitialStamp(StatError, MinFileTime), polls) == Some(i)
  {
    if i > 0 {
      FailedFirstReadFiresAtFirstSuccess(polls[1..], i - 1);
    }
  }
}
