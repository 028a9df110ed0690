/** The cron engine: what one scan requests, what firing does to the store, and what survives over
    whole runs. Instants are nanoseconds. */
module CronEngine {
  import opened Results

  const SECOND: int := 1_000_000_000
  const MINUTE: int := 60 * SECOND
  const GRACE: int := 120 * SECOND

  /** The filename codec, `stem` for writing and `parse` for listing, and the instants it can write. */
  datatype Codec = Codec(stem: int -> string, parse: string -> Option<int>, lo: int, hi: int) {
    predicate Writes(t: int) {
      lo <= t < hi && t % SECOND == 0
    }

    /** Whole-second instants in the range survive the trip through a filename. */
    ghost predicate Sound() {
      forall t | Writes(t) :: parse(stem(t)) == Some(t)
    }

    /** The clock reading and the grace window before it are in the range. */
    predicate Covers(now: int) {
      lo <= now - GRACE && now < hi
    }
  }

  /** `next` is `next_fire_after`, with `None` for its error. */
  datatype Spec = Spec(target: string, enabled: bool, createdAt: int, next: int -> Option<int>)

  datatype SpecFile = Missing | Unreadable | Malformed | Parsed(spec: Spec)

  datatype SpecDir = SpecDir(file: SpecFile, names: seq<string>)

  datatype FireRequest = FireRequest(name: string, spec: Spec, ts: int)

  /** `next` finds the least occurrence after its anchor, and fails only when none follows within
      the grace window. Occurrences are whole seconds. */
  ghost predicate Follows(next: int -> Option<int>, occ: int -> bool) {
    && (forall a | next(a).Some? ::
          a < next(a).value && occ(next(a).value) && forall t | a < t < next(a).value :: !occ(t))
    && (forall a, t | next(a).None? && a < t <= a + GRACE :: !occ(t))
    && (forall t | occ(t) :: t % SECOND == 0)
  }

  // ----- the scan

  function ThreadStem(name: string): Option<string> {
    var suffix := ".thread";
    if |name| >= |suffix| && name[|name| - |suffix|..] == suffix then Some(name[..|name| - |suffix|]) else None
  }

  function FileName(cx: Codec, t: int): string {
    cx.stem(t) + ".thread"
  }

  /** The instant a directory entry stands for, if it is a fire. */
  function FireOf(cx: Codec, name: string): Option<int> {
    var stem :- ThreadStem(name);
    cx.parse(stem)
  }

  function Later(a: Option<int>, b: Option<int>): Option<int> {
    if a.None? then b
    else if b.None? then a
    else Some(if a.value < b.value then b.value else a.value)
  }

  function LatestFire(cx: Codec, names: seq<string>): (r: Option<int>)
    ensures forall i | 0 <= i < |names| && FireOf(cx, names[i]).Some? ::
      r.Some? && FireOf(cx, names[i]).value <= r.value
    ensures r.Some? ==> exists i | 0 <= i < |names| :: FireOf(cx, names[i]) == r
  {
    if names == [] then None
    else Later(LatestFire(cx, names[..|names| - 1]), FireOf(cx, names[|names| - 1]))
  }

  method LatestFireInDir(cx: Codec, names: seq<string>) returns (latest: Option<int>)
    ensures latest == LatestFire(cx, names)
  {
    latest := None;
    assert names[..0] == [];
    for i := 0 to |names|
      invariant latest == LatestFire(cx, names[..i])
    {
      assert names[..i + 1][..i] == names[..i];
      latest := Later(latest, FireOf(cx, names[i]));
    }
    assert names[..|names|] == names;
  }

  function RawAnchor(cx: Codec, dir: SpecDir): int
    requires dir.file.Parsed?
  {
    match LatestFire(cx, dir.names)
    case Some(t) => t
    case None => dir.file.spec.createdAt
  }

  function Clamp(raw: int, now: int): int {
    if raw < now - GRACE then now - GRACE else raw
  }

  /** `scan_one`. */
  function ScanOne(cx: Codec, dir: SpecDir, name: string, self: string, now: int): Option<FireRequest> {
    match dir.file
    case Parsed(spec) =>
      if !spec.enabled || spec.target != self then None
      else
        var ts :- spec.next(Clamp(RawAnchor(cx, dir), now));
        if ts > now || FileName(cx, ts) in dir.names then None
        else Some(FireRequest(name, spec, ts))
    case _ => None
  }

  /** An entry of `crons/`; what is not a readable directory is skipped. */
  datatype Listed = Stray | Unstatable | Dir(name: string, dir: SpecDir)

  function Found(cx: Codec, l: Listed, self: string, now: int): seq<FireRequest> {
    if l.Dir? && ScanOne(cx, l.dir, l.name, self, now).Some?
    then [ScanOne(cx, l.dir, l.name, self, now).value] else []
  }

  function Due(cx: Codec, listing: seq<Listed>, self: string, now: int): seq<FireRequest> {
    if listing == [] then []
    else Due(cx, listing[..|listing| - 1], self, now) + Found(cx, listing[|listing| - 1], self, now)
  }

  method ScanDue(cx: Codec, listing: seq<Listed>, self: string, now: int) returns (due: seq<FireRequest>)
    ensures due == Due(cx, listing, self, now)
  {
    due := [];
    assert listing[..0] == [];
    for i := 0 to |listing|
      invariant due == Due(cx, listing[..i], self, now)
    {
      assert listing[..i + 1][..i] == listing[..i];
      if listing[i].Dir? {
        var req := ScanOne(cx, listing[i].dir, listing[i].name, self, now);
        if req.Some? {
          due := due + [req.value];
        }
      }
    }
    assert listing[..|listing|] == listing;
  }

  // ----- what a scan means

  ghost predicate IsDue(occ: int -> bool, after: int, now: int, t: int) {
    occ(t) && after < t <= now && forall u | after < u < t :: !occ(u)
  }

  lemma StemOfFileName(cx: Codec, t: int)
    requires cx.Sound() && cx.Writes(t)
    ensures FireOf(cx, FileName(cx, t)) == Some(t)
  {
    var s := cx.stem(t);
    assert (s + ".thread")[..|s|] == s && (s + ".thread")[|s|..] == ".thread";
  }

  /** An instant later than every fire on disk has no file yet. */
  lemma LaterHasNoFile(cx: Codec, names: seq<string>, t: int)
    requires cx.Sound() && cx.Writes(t)
    requires LatestFire(cx, names).Some? ==> LatestFire(cx, names).value < t
    ensures FileName(cx, t) !in names
  {
    StemOfFileName(cx, t);
  }

  /** A scan requests exactly the earliest occurrence after the clamped anchor, if it has come; the
      check for an existing file never decides anything. */
  lemma ScanMeaning(cx: Codec, dir: SpecDir, name: string, self: string, now: int, occ: int -> bool)
    requires cx.Sound() && cx.Covers(now)
    requires dir.file.Parsed? ==> Follows(dir.file.spec.next, occ)
    ensures var r := ScanOne(cx, dir, name, self, now);
      && (r.Some? ==> r.value.name == name && dir.file == Parsed(r.value.spec))
      && (forall t :: r.Some? && r.value.ts == t <==>
            && dir.file.Parsed? && dir.file.spec.enabled && dir.file.spec.target == self
            && IsDue(occ, Clamp(RawAnchor(cx, dir), now), now, t))
  {
    if dir.file.Parsed? {
      var spec := dir.file.spec;
      var next := spec.next(Clamp(RawAnchor(cx, dir), now));
      if next.Some? && next.value <= now {
        LaterHasNoFile(cx, dir.names, next.value);
      }
    }
  }

  /** Every request lies in the last two minutes, after all fires on disk, or after creation when
      there are none, and belongs to the scanning handler. */
  lemma RequestIsFresh(cx: Codec, dir: SpecDir, name: string, self: string, now: int, occ: int -> bool)
    requires cx.Sound() && cx.Covers(now) && ScanOne(cx, dir, name, self, now).Some?
    requires dir.file.Parsed? ==> Follows(dir.file.spec.next, occ)
    ensures var r := ScanOne(cx, dir, name, self, now).value;
      && now - GRACE < r.ts <= now && cx.Writes(r.ts) && r.spec.target == self
      && (forall i | 0 <= i < |dir.names| && FireOf(cx, dir.names[i]).Some? :: FireOf(cx, dir.names[i]).value < r.ts)
      && (LatestFire(cx, dir.names).None? ==> r.spec.createdAt < r.ts)
  {
    ScanMeaning(cx, dir, name, self, now, occ);
    var r := ScanOne(cx, dir, name, self, now).value;
    assert IsDue(occ, Clamp(RawAnchor(cx, dir), now), now, r.ts);
  }

  // ----- one owned spec over a sequence of ticks, every write succeeding

  /** Directory and fires so far; a fire is due to the tick that made it. */
  datatype Progress = Progress(names: seq<string>, fired: seq<int>)

  function Tick(cx: Codec, spec: Spec, p: Progress, now: int): Progress {
    match ScanOne(cx, SpecDir(Parsed(spec), p.names), "", spec.target, now)
    case None => p
    case Some(r) => Progress(p.names + [FileName(cx, r.ts)], p.fired + [r.ts])
  }

  function Run(cx: Codec, spec: Spec, names: seq<string>, ticks: seq<int>): Progress {
    if ticks == [] then Progress(names, [])
    else Tick(cx, spec, Run(cx, spec, names, ticks[..|ticks| - 1]), ticks[|ticks| - 1])
  }

  /** Ticks move forward and never skip more than a minute. */
  predicate Regular(ticks: seq<int>) {
    forall i | 0 < i < |ticks| :: ticks[i - 1] <= ticks[i] <= ticks[i - 1] + MINUTE
  }

  predicate Covered(cx: Codec, ticks: seq<int>) {
    forall i | 0 <= i < |ticks| :: cx.Covers(ticks[i])
  }

  ghost predicate Spaced(occ: int -> bool) {
    forall t, u | occ(t) && occ(u) && t < u :: t + MINUTE <= u
  }

  predicate Increasing(s: seq<int>) {
    forall i, j | 0 <= i < j < |s| :: s[i] < s[j]
  }

  function FirstAnchor(cx: Codec, spec: Spec, names: seq<string>, ticks: seq<int>): int
    requires ticks != []
  {
    Clamp(RawAnchor(cx, SpecDir(Parsed(spec), names)), ticks[0])
  }

  /** The last instant accounted for. */
  function Front(p: Progress, start: int): int {
    if p.fired == [] then start else p.fired[|p.fired| - 1]
  }

  /** Everything up to the front is fired, and nothing older than a minute waits behind it. */
  ghost predicate OnTime(cx: Codec, spec: Spec, p: Progress, occ: int -> bool, start: int, now: int) {
    && Increasing(p.fired)
    && (forall i | 0 <= i < |p.fired| :: start < p.fired[i] && occ(p.fired[i]))
    && (forall o | occ(o) && start < o <= Front(p, start) :: o in p.fired)
    && (forall o | occ(o) && Front(p, start) < o :: now - MINUTE < o)
    && (p.fired != [] ==> RawAnchor(cx, SpecDir(Parsed(spec), p.names)) == Front(p, start))
  }

  lemma LatestSnoc(cx: Codec, names: seq<string>, t: int)
    requires cx.Sound() && cx.Writes(t)
    requires LatestFire(cx, names).Some? ==> LatestFire(cx, names).value < t
    ensures LatestFire(cx, names + [FileName(cx, t)]) == Some(t)
  {
    StemOfFileName(cx, t);
    var more := names + [FileName(cx, t)];
    assert more[..|more| - 1] == names;
  }

  /** What a tick makes of a directory: it fires the first occurrence after the clamped anchor. */
  lemma TickFires(cx: Codec, spec: Spec, p: Progress, now: int, occ: int -> bool)
    requires cx.Sound() && cx.Covers(now) && Follows(spec.next, occ) && spec.enabled
    ensures var after := Clamp(RawAnchor(cx, SpecDir(Parsed(spec), p.names)), now);
      var q := Tick(cx, spec, p, now);
      || (q == p && forall o | occ(o) && after < o :: now < o)
      || (exists o | IsDue(occ, after, now, o) :: q.fired == p.fired + [o]
           && RawAnchor(cx, SpecDir(Parsed(spec), q.names)) == o)
  {
    var dir := SpecDir(Parsed(spec), p.names);
    var after := Clamp(RawAnchor(cx, dir), now);
    ScanMeaning(cx, dir, "", spec.target, now, occ);
    var r := ScanOne(cx, dir, "", spec.target, now);
    if r.Some? {
      assert IsDue(occ, after, now, r.value.ts);
      LatestSnoc(cx, p.names, r.value.ts);
    } else if o :| occ(o) && after < o <= now {
      assert spec.next(after).Some?;
      LaterHasNoFile(cx, p.names, spec.next(after).value);
      assert false;
    }
  }

  lemma FirstTick(cx: Codec, spec: Spec, names: seq<string>, now: int, occ: int -> bool)
    requires cx.Sound() && cx.Covers(now) && Follows(spec.next, occ) && Spaced(occ) && spec.enabled
    ensures var start := Clamp(RawAnchor(cx, SpecDir(Parsed(spec), names)), now);
      OnTime(cx, spec, Tick(cx, spec, Progress(names, []), now), occ, start, now)
  {
    hide ScanOne, LatestFire;
    TickFires(cx, spec, Progress(names, []), now, occ);
  }

  lemma NextTick(cx: Codec, spec: Spec, p: Progress, occ: int -> bool, start: int, was: int, now: int, raw: int)
    requires cx.Sound() && cx.Covers(now) && Follows(spec.next, occ) && Spaced(occ) && spec.enabled
    requires OnTime(cx, spec, p, occ, start, was) && was <= now <= was + MINUTE
    requires p.fired == [] ==> RawAnchor(cx, SpecDir(Parsed(spec), p.names)) == raw
    requires raw <= start
    requires start <= Clamp(raw, now)
    ensures OnTime(cx, spec, Tick(cx, spec, p, now), occ, start, now)
  {
    hide Follows, RawAnchor, Tick, OnTime, Increasing, Spaced;
    var after := Clamp(RawAnchor(cx, SpecDir(Parsed(spec), p.names)), now);
    NextAnchor(cx, spec, p, occ, start, was, now, raw);
    TickFires(cx, spec, p, now, occ);
    var q := Tick(cx, spec, p, now);
    if forall o | occ(o) && after < o :: now < o {
      StaysOnTime(cx, spec, p, q, occ, start, was, now);
    } else {
      var o :| IsDue(occ, after, now, o) && q.fired == p.fired + [o] && RawAnchor(cx, SpecDir(Parsed(spec), q.names)) == o;
      MovesOn(cx, spec, p, q, occ, start, was, now, o);
    }
  }

  /** The clamp never jumps over an occurrence that has not been fired. */
  lemma NextAnchor(cx: Codec, spec: Spec, p: Progress, occ: int -> bool, start: int, was: int, now: int, raw: int)
    requires OnTime(cx, spec, p, occ, start, was) && was <= now <= was + MINUTE
    requires p.fired == [] ==> RawAnchor(cx, SpecDir(Parsed(spec), p.names)) == raw
    requires raw <= start <= Clamp(raw, now)
    ensures var after := Clamp(RawAnchor(cx, SpecDir(Parsed(spec), p.names)), now);
      Front(p, start) <= after && forall o | occ(o) && Front(p, start) < o :: after < o
  {
    hide RawAnchor, Increasing;
  }

  lemma StaysOnTime(cx: Codec, spec: Spec, p: Progress, q: Progress, occ: int -> bool, start: int, was: int, now: int)
    requires OnTime(cx, spec, p, occ, start, was) && q == p
    requires forall o | occ(o) && Front(p, start) < o :: now < o
    ensures OnTime(cx, spec, q, occ, start, now)
  {
    hide RawAnchor, Increasing;
  }

  lemma MovesOn(cx: Codec, spec: Spec, p: Progress, q: Progress, occ: int -> bool, start: int, was: int, now: int, o: int)
    requires OnTime(cx, spec, p, occ, start, was) && was <= now <= was + MINUTE && Spaced(occ)
    requires Front(p, start) < o && occ(o) && forall x | Front(p, start) < x < o :: !occ(x)
    requires q.fired == p.fired + [o] && RawAnchor(cx, SpecDir(Parsed(spec), q.names)) == o
    ensures OnTime(cx, spec, q, occ, start, now)
  {
    hide RawAnchor, Increasing, Spaced;
    FiredNext(p, q, occ, start, was, now, o);
  }

  /** The fired list takes one more instant, the first one after the front. */
  lemma FiredNext(p: Progress, q: Progress, occ: int -> bool, start: int, was: int, now: int, o: int)
    requires Increasing(p.fired) && Spaced(occ) && was <= now <= was + MINUTE
    requires forall i | 0 <= i < |p.fired| :: start < p.fired[i] && occ(p.fired[i])
    requires forall x | occ(x) && start < x <= Front(p, start) :: x in p.fired
    requires forall x | occ(x) && Front(p, start) < x :: was - MINUTE < x
    requires Front(p, start) < o && occ(o) && forall x | Front(p, start) < x < o :: !occ(x)
    requires q.fired == p.fired + [o]
    ensures Increasing(q.fired)
    ensures forall i | 0 <= i < |q.fired| :: start < q.fired[i] && occ(q.fired[i])
    ensures forall x | occ(x) && start < x <= o :: x in q.fired
    ensures forall x | occ(x) && o < x :: now - MINUTE < x
  {
    forall x | occ(x) && start < x <= o ensures x in q.fired {
      assert x <= Front(p, start) || x == o;
      if x == o {
        assert q.fired[|p.fired|] == o;
      }
    }
  }

  lemma {:induction false} RunOnTime(cx: Codec, spec: Spec, names: seq<string>, ticks: seq<int>, occ: int -> bool)
    requires cx.Sound() && Follows(spec.next, occ) && Spaced(occ) && spec.enabled
    requires ticks != [] && Regular(ticks) && Covered(cx, ticks)
    ensures var p := Run(cx, spec, names, ticks);
      && OnTime(cx, spec, p, occ, FirstAnchor(cx, spec, names, ticks), ticks[|ticks| - 1])
      && (p.fired == [] ==> p.names == names)
      && ticks[0] <= ticks[|ticks| - 1]
  {
    hide OnTime, Follows, Spaced, ScanOne, RawAnchor;
    var before, now := ticks[..|ticks| - 1], ticks[|ticks| - 1];
    if before == [] {
      assert Run(cx, spec, names, before) == Progress(names, []);
      FirstTick(cx, spec, names, now, occ);
    } else {
      RunOnTime(cx, spec, names, before, occ);
      NextTick(cx, spec, Run(cx, spec, names, before), occ, FirstAnchor(cx, spec, names, ticks), before[|before| - 1], now,
               RawAnchor(cx, SpecDir(Parsed(spec), names)));
    }
  }

  /** While the engine keeps ticking it loses nothing: every occurrence after the first scan's
      anchor is fired once, in order, by the first tick a minute or more after it, and at most one
      occurrence that has come is still waiting. Being about every tick sequence, it holds after
      each tick of a run. */
  lemma NoLoss(cx: Codec, spec: Spec, names: seq<string>, ticks: seq<int>, occ: int -> bool)
    requires cx.Sound() && Follows(spec.next, occ) && Spaced(occ) && spec.enabled
    requires ticks != [] && Regular(ticks) && Covered(cx, ticks)
    ensures var fired, start, now := Run(cx, spec, names, ticks).fired, FirstAnchor(cx, spec, names, ticks), ticks[|ticks| - 1];
      && Increasing(fired)
      && (forall o | o in fired :: occ(o) && start < o)
      && (forall o | occ(o) && start < o <= now - MINUTE :: o in fired)
      && (forall o, u | occ(o) && occ(u) && start < o <= now && start < u <= now && o !in fired && u !in fired :: o == u)
  {
    hide ScanOne, Follows, Run, RawAnchor;
    RunOnTime(cx, spec, names, ticks, occ);
  }

  // ----- the minute is sharp

  function EveryMinute(a: int): Option<int> {
    Some((a / MINUTE + 1) * MINUTE)
  }

  predicate OnTheMinute(t: int) {
    t % MINUTE == 0
  }

  lemma NoneBetween(a: int, t: int)
    requires a < t < (a / MINUTE + 1) * MINUTE
    ensures !OnTheMinute(t)
  {
  }

  lemma WholeSeconds(t: int)
    requires OnTheMinute(t)
    ensures t % SECOND == 0
  {
    assert t == (t / MINUTE * 60) * SECOND;
  }

  lemma EveryMinuteFollows()
    ensures Follows(EveryMinute, OnTheMinute) && Spaced(OnTheMinute)
  {
    forall a, t | a < t < EveryMinute(a).value ensures !OnTheMinute(t) {
      NoneBetween(a, t);
    }
    forall a ensures a < EveryMinute(a).value && OnTheMinute(EveryMinute(a).value) {
    }
    forall t | OnTheMinute(t) ensures t % SECOND == 0 {
      WholeSeconds(t);
    }
    forall t, u | OnTheMinute(t) && OnTheMinute(u) && t < u ensures t + MINUTE <= u {
      assert t / MINUTE < u / MINUTE;
    }
    hide OnTheMinute, EveryMinute;
  }

  /** An occurrence that has left the grace window is never fired again. */
  lemma {:induction false} MissedStaysMissed(cx: Codec, spec: Spec, names: seq<string>, ticks: seq<int>, more: seq<int>, o: int, occ: int -> bool)
    requires cx.Sound() && Follows(spec.next, occ)
    requires o !in Run(cx, spec, names, ticks).fired
    requires Covered(cx, more) && forall i | 0 <= i < |more| :: o <= more[i] - GRACE
    ensures o !in Run(cx, spec, names, ticks + more).fired
  {
    hide ScanOne, Follows;
    if more == [] {
      assert ticks + more == ticks;
    } else {
      var init, now := more[..|more| - 1], more[|more| - 1];
      MissedStaysMissed(cx, spec, names, ticks, init, o, occ);
      assert (ticks + more)[..|ticks + more| - 1] == ticks + init;
      var dir := SpecDir(Parsed(spec), Run(cx, spec, names, ticks + init).names);
      if ScanOne(cx, dir, "", spec.target, now).Some? {
        RequestIsFresh(cx, dir, "", spec.target, now, occ);
      }
    }
  }

  lemma FirstMinuteFires(cx: Codec, spec: Spec)
    requires cx.Sound() && cx.Covers(3 * MINUTE - 1) && spec == Spec("", true, 0, EveryMinute)
    ensures Run(cx, spec, [], [3 * MINUTE - 1]).fired == [MINUTE]
    ensures RawAnchor(cx, SpecDir(Parsed(spec), [])) == 0
  {
    var now := 3 * MINUTE - 1;
    assert [now][..0] == [];
    assert Run(cx, spec, [], []) == Progress([], []);
    assert Run(cx, spec, [], [now]) == Tick(cx, spec, Progress([], []), now);
    assert Clamp(0, now) == MINUTE - 1;
    assert EveryMinute(MINUTE - 1) == Some(MINUTE);
  }

  /** One gap longer than a minute, by any amount, can drop an occurrence for good: a spec that runs
      every minute, two ticks, and the second minute is past the grace window before its turn. */
  lemma LongerGapLoses(cx: Codec, gap: int, later: seq<int>)
    requires cx.Sound() && gap > MINUTE && cx.Covers(3 * MINUTE - 1) && Covered(cx, [3 * MINUTE - 1 + gap] + later)
    requires forall i | 0 <= i < |later| :: 3 * MINUTE - 1 + gap <= later[i]
    ensures var spec, first := Spec("", true, 0, EveryMinute), 3 * MINUTE - 1;
      && Follows(spec.next, OnTheMinute) && Spaced(OnTheMinute) && OnTheMinute(2 * MINUTE)
      && FirstAnchor(cx, spec, [], [first, first + gap]) < 2 * MINUTE
      && 2 * MINUTE !in Run(cx, spec, [], [first] + ([first + gap] + later)).fired
  {
    hide Follows, Spaced, ScanOne, RawAnchor, Run, Covered;
    var spec, first, more := Spec("", true, 0, EveryMinute), 3 * MINUTE - 1, [3 * MINUTE - 1 + gap] + later;
    EveryMinuteFollows();
    FirstMinuteFires(cx, spec);
    forall i | 0 <= i < |more| ensures 2 * MINUTE <= more[i] - GRACE {
      assert more[i] == if i == 0 then first + gap else later[i - 1];
    }
    MissedStaysMissed(cx, spec, [], [first], more, 2 * MINUTE, OnTheMinute);
  }
}
