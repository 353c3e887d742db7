/**
The rotating file sink.  A file is the list of byte strings written to it, so its bytes are
their concatenation; index 0 is the active path and index i is the archive `path.i`.
Opening, renaming and writing are taken to succeed, and every call is given today's date.
*/
module FileSink {
  import opened Events

  type File = seq<string>

  function Bytes(f: File): string {
    if f == [] then "" else Bytes(f[..|f| - 1]) + f[|f| - 1]
  }

  function Size(f: File): nat {
    if f == [] then 0 else Size(f[..|f| - 1]) + |f[|f| - 1]|
  }

  // ---------------------------------------------------------------- rotation decisions

  datatype Mode =
    | Never
    | FileSizeExceeds(maxBytes: nat, keepFiles: int)
    | NewDayBegins(keepFiles: int)
    | FileSizeExceedsOrNewDayBegins(maxBytes: nat, keepFiles: int)

  /** max_archived_files(). */
  function Keep(m: Mode): int {
    if m.Never? then 5 else m.keepFiles
  }

  predicate TooBig(maxBytes: nat, current: nat, incoming: nat) {
    current + incoming > maxBytes
  }

  predicate DayChanged(openedDay: string, today: string) {
    openedDay != "" && today != "" && openedDay != today
  }

  predicate ShouldRotate(m: Mode, current: nat, incoming: nat, openedDay: string, today: string) {
    match m
    case Never => false
    case FileSizeExceeds(max, _) => TooBig(max, current, incoming)
    case NewDayBegins(_) => DayChanged(openedDay, today)
    case FileSizeExceedsOrNewDayBegins(max, _) => TooBig(max, current, incoming) || DayChanged(openedDay, today)
  }

  // ---------------------------------------------------------------- rotation as one simultaneous shift

  /** Which old file ends up at index j when all archives shift up at once: j - 1, unless it is
      missing (then the oldest archive stays where it is) or j is beyond the shift. */
  function Source(files: map<nat, File>, keep: nat, j: nat): Option<nat> {
    if j == 0 then None
    else if j > keep then if j in files then Some(j) else None
    else if j - 1 in files then Some(j - 1)
    else if j == keep && keep in files then Some(keep)
    else None
  }

  /** The directory after rotate_files; the active path is gone. */
  function Shifted(files: map<nat, File>, keep: nat): map<nat, File> {
    map j: nat | j in files.Keys + (set k | k in files :: k + 1) && Source(files, keep, j).Some? ::
      files[Source(files, keep, j).value]
  }

  datatype Store = Store(files: map<nat, File>, openedDay: string, currentSize: nat)

  function Rotated(s: Store, keep: int, today: string): Store
    requires 0 in s.files
  {
    // with keep <= 0 nothing is renamed, and reopening truncates the active file
    var files := if keep <= 0 then s.files else Shifted(s.files, keep);
    Store(files[0 := []], today, 0)
  }

  function Appended(s: Store, bytes: string): Store
    requires 0 in s.files
  {
    s.(files := s.files[0 := s.files[0] + [bytes]], currentSize := s.currentSize + |bytes|)
  }

  function Written(s: Store, m: Mode, bytes: string, today: string): Store
    requires 0 in s.files
  {
    var rotates := ShouldRotate(m, s.currentSize, |bytes|, s.openedDay, today);
    Appended(if rotates then Rotated(s, Keep(m), today) else s, bytes)
  }

  // ---------------------------------------------------------------- the sink

  /** What a sequence of renames i -> i + 1, for i from keep - 1 down to `next` + 1, has done. */
  ghost predicate ShiftedDownTo(before: map<nat, File>, now: map<nat, File>, keep: nat, next: nat)
    requires next < keep
  {
    && (forall j: nat | j <= next :: (j in now <==> j in before) && (j in before ==> now[j] == before[j]))
    && (next + 1 == keep ==> (keep in now <==> keep in before) && (keep in before ==> now[keep] == before[keep]))
    && (next + 1 < keep ==> next + 1 !in now)
    && (forall j: nat | j > next + 1 ::
          && (j in now <==> Source(before, keep, j).Some?)
          && (j in now ==> now[j] == before[Source(before, keep, j).value]))
  }

  lemma ShiftOne(before: map<nat, File>, now: map<nat, File>, keep: nat, i: nat)
    requires 1 <= i < keep && ShiftedDownTo(before, now, keep, i)
    ensures ShiftedDownTo(before, if i in now then now[i + 1 := now[i]] - {i} else now, keep, i - 1)
  {
    var next := if i in now then now[i + 1 := now[i]] - {i} else now;
    forall j: nat | j > i
      ensures j in next <==> Source(before, keep, j).Some?
      ensures j in next ==> next[j] == before[Source(before, keep, j).value]
    {
      if j == i + 1 {
        assert i in now <==> i in before;
      } else {
        assert j in next <==> j in now;
      }
    }
  }

  lemma ShiftLast(before: map<nat, File>, now: map<nat, File>, keep: nat)
    requires 1 <= keep && 0 in before && ShiftedDownTo(before, now, keep, 0)
    ensures 0 in now && now[1 := now[0]] - {0} == Shifted(before, keep)
  {
    var next := now[1 := now[0]] - {0};
    forall j: nat ensures j in next <==> j in Shifted(before, keep)
                  ensures j in next ==> next[j] == Shifted(before, keep)[j] {
      SourceIsShifted(before, keep, j);
      if j == 1 {
        assert Source(before, keep, 1) == Some(0);
      }
    }
  }

  lemma SourceIsShifted(files: map<nat, File>, keep: nat, j: nat)
    ensures j in Shifted(files, keep) <==> Source(files, keep, j).Some?
  {
    if j > 0 && j - 1 in files {
      assert j in set k | k in files :: k + 1;
    }
  }

  class RotatingFileSink {
    const mode: Mode
    var files: map<nat, File>
    var openedDay: string
    var currentSize: nat

    ghost predicate Valid()
      reads this
    {
      0 in files && currentSize == Size(files[0])
    }

    ghost function Contents(): Store
      reads this
    {
      Store(files, openedDay, currentSize)
    }

    /** Opens the path in append mode: an existing file keeps its contents. */
    constructor (directory: map<nat, File>, mode: Mode, today: string)
      ensures Valid() && this.mode == mode
      ensures files == if 0 in directory then directory else directory[0 := []]
      ensures openedDay == today
    {
      this.mode := mode;
      files := if 0 in directory then directory else directory[0 := []];
      openedDay := today;
      currentSize := Size(if 0 in directory then directory[0] else []);
    }

    /** The descending rename loop, in place, is one simultaneous shift. */
    method RotateFiles()
      requires 0 in files
      modifies this`files
      ensures files == if Keep(mode) <= 0 then old(files) else Shifted(old(files), Keep(mode))
    {
      var keep := Keep(mode);
      if keep <= 0 {
        return;
      }
      var i := keep - 1;
      while i >= 1
        invariant 0 <= i < keep
        invariant ShiftedDownTo(old(files), files, keep, i)
      {
        ShiftOne(old(files), files, keep, i);
        if i in files {
          files := files[i + 1 := files[i]] - {i};
        }
        i := i - 1;
      }
      ShiftLast(old(files), files, keep);
      if 0 in files {
        files := files[1 := files[0]] - {0};
      }
    }

    method RotateIfNeeded(incoming: nat, today: string)
      requires Valid()
      modifies this
      ensures Valid()
      ensures var full := (mode.FileSizeExceeds? || mode.FileSizeExceedsOrNewDayBegins?)
                          && old(currentSize) + incoming > mode.maxBytes;
              var newDay := (mode.NewDayBegins? || mode.FileSizeExceedsOrNewDayBegins?)
                            && old(openedDay) != "" && today != "" && old(openedDay) != today;
              Contents() == if full || newDay then Rotated(old(Contents()), Keep(mode), today) else old(Contents())
    {
      if !ShouldRotate(mode, currentSize, incoming, openedDay, today) {
        return;
      }
      RotateFiles();
      openedDay := today;
      files := files[0 := []];
      currentSize := 0;
    }

    method Write(bytes: string, today: string)
      requires Valid()
      modifies this
      ensures Valid()
      ensures Contents() == Written(old(Contents()), mode, bytes, today)
    {
      RotateIfNeeded(|bytes|, today);
      SizeAppends(files[0], bytes);
      files := files[0 := files[0] + [bytes]];
      currentSize := currentSize + |bytes|;
    }
  }

  lemma SizeAppends(f: File, bytes: string)
    ensures Size(f + [bytes]) == Size(f) + |bytes|
  {
    assert (f + [bytes])[..|f|] == f;
  }

  // ---------------------------------------------------------------- runs of writes

  /** One call of write: the bytes, and the date it sees. */
  datatype Record = Record(bytes: string, today: string)

  function Run(s: Store, m: Mode, records: seq<Record>): Store
    requires 0 in s.files
    ensures 0 in Run(s, m, records).files
  {
    if records == [] then s
    else
      var before, r := Run(s, m, records[..|records| - 1]), records[|records| - 1];
      Written(before, m, r.bytes, r.today)
  }

  /** The files that a run rotates away, in order: each is the active file as it was just
      before that rotation. */
  function RotatedAway(s: Store, m: Mode, records: seq<Record>): seq<File>
    requires 0 in s.files
  {
    if records == [] then []
    else
      var before, r := Run(s, m, records[..|records| - 1]), records[|records| - 1];
      RotatedAway(s, m, records[..|records| - 1])
      + if ShouldRotate(m, before.currentSize, |r.bytes|, before.openedDay, r.today) then [before.files[0]] else []
  }

  function Kept(m: Mode): nat {
    if Keep(m) <= 0 then 0 else Keep(m)
  }

  /** The archives are exactly the newest `keep` files of a history, newest at index 1. */
  ghost predicate ArchivesAre(files: map<nat, File>, keep: nat, history: seq<File>) {
    && (forall i: nat | 1 <= i :: i in files <==> i <= keep && i <= |history|)
    && (forall i: nat | 1 <= i && i in files :: i <= |history| && files[i] == history[|history| - i])
  }

  ghost predicate Sound(s: Store, m: Mode, history: seq<File>) {
    && 0 in s.files
    && s.currentSize == Size(s.files[0])
    && ArchivesAre(s.files, Kept(m), history)
  }

  lemma RotationKeepsArchives(s: Store, m: Mode, today: string, history: seq<File>)
    requires Sound(s, m, history)
    ensures Sound(Rotated(s, Keep(m), today), m, history + [s.files[0]])
  {
    var keep, files, history' := Kept(m), s.files, history + [s.files[0]];
    var files' := Rotated(s, Keep(m), today).files;
    forall i: nat | 1 <= i
      ensures i in files' <==> i <= keep && i <= |history'|
      ensures i in files' ==> i <= |history'| && files'[i] == history'[|history'| - i]
    {
      if keep > 0 {
        assert i in files' <==> Source(files, keep, i).Some?;
        assert 1 <= i <= keep && i in files ==> i - 1 in files;
        if i in files' && i > 1 {
          assert Source(files, keep, i) == Some(i - 1);
        }
      }
    }
  }

  lemma WriteKeepsArchives(s: Store, m: Mode, r: Record, history: seq<File>)
    requires Sound(s, m, history)
    ensures var rotate := ShouldRotate(m, s.currentSize, |r.bytes|, s.openedDay, r.today);
            Sound(Written(s, m, r.bytes, r.today), m, if rotate then history + [s.files[0]] else history)
  {
    if ShouldRotate(m, s.currentSize, |r.bytes|, s.openedDay, r.today) {
      RotationKeepsArchives(s, m, r.today, history);
      AppendKeepsArchives(Rotated(s, Keep(m), r.today), m, r.bytes, history + [s.files[0]]);
    } else {
      AppendKeepsArchives(s, m, r.bytes, history);
    }
  }

  lemma AppendKeepsArchives(s: Store, m: Mode, bytes: string, history: seq<File>)
    requires Sound(s, m, history)
    ensures Sound(Appended(s, bytes), m, history)
  {
    SizeAppends(s.files[0], bytes);
  }

  /** After any run, archive i is exactly the i-th newest file that was rotated away (with k
      rotations: the active file just before rotation k - i + 1), the archive indices are
      contiguous and at most keep, and the size counter is the length of the active file. */
  lemma {:induction false} ArchivesAreNewest(s: Store, m: Mode, records: seq<Record>, history: seq<File>)
    requires Sound(s, m, history)
    ensures Sound(Run(s, m, records), m, history + RotatedAway(s, m, records))
  {
    if records == [] {
      assert history + [] == history;
    } else {
      var init, r := records[..|records| - 1], records[|records| - 1];
      ArchivesAreNewest(s, m, init, history);
      var before := Run(s, m, init);
      WriteKeepsArchives(before, m, r, history + RotatedAway(s, m, init));
      var away := RotatedAway(s, m, init);
      assert history + (away + [before.files[0]]) == history + away + [before.files[0]];
      assert history + (away + []) == history + away;
    }
  }

  // ---------------------------------------------------------------- retention of a suffix

  /** The records of a list of files, oldest first. */
  function Flatten(files: seq<File>): File {
    if files == [] then [] else Flatten(files[..|files| - 1]) + files[|files| - 1]
  }

  /** The files on disk, oldest first: archives n down to 1, then the active file. */
  function Disk(files: map<nat, File>, n: nat): seq<File>
    requires forall i: nat | i <= n :: i in files
  {
    seq(n + 1, k requires 0 <= k <= n => files[n - k])
  }

  function Payload(records: seq<Record>): File {
    seq(|records|, i requires 0 <= i < |records| => records[i].bytes)
  }

  lemma FlattenAppends(files: seq<File>, f: File)
    ensures Flatten(files + [f]) == Flatten(files) + f
  {
    assert (files + [f])[..|files|] == files;
  }

  lemma {:induction false} FlattenConcat(a: seq<File>, b: seq<File>)
    ensures Flatten(a + b) == Flatten(a) + Flatten(b)
  {
    if b == [] {
      assert a + b == a;
    } else {
      FlattenConcat(a, b[..|b| - 1]);
      assert (a + b)[..|a + b| - 1] == a + b[..|b| - 1];
    }
  }

  /** Nothing is lost or reordered by rotating: rotated files and the active file together are
      what was there before, then everything written. */
  lemma {:induction false} NothingLostBeforeTheCut(s: Store, m: Mode, records: seq<Record>)
    requires 0 in s.files
    ensures Flatten(RotatedAway(s, m, records)) + Run(s, m, records).files[0] == s.files[0] + Payload(records)
  {
    if records == [] {
      assert s.files[0] + Payload(records) == s.files[0];
    } else {
      var init, r := records[..|records| - 1], records[|records| - 1];
      NothingLostBeforeTheCut(s, m, init);
      var before, away := Run(s, m, init), RotatedAway(s, m, init);
      assert Payload(records) == Payload(init) + [r.bytes];
      Assoc(s.files[0], Payload(init), [r.bytes]);
      if ShouldRotate(m, before.currentSize, |r.bytes|, before.openedDay, r.today) {
        FlattenAppends(away, before.files[0]);
        assert Run(s, m, records).files[0] == [] + [r.bytes] == [r.bytes];
      } else {
        assert RotatedAway(s, m, records) == away;
        assert Run(s, m, records).files[0] == before.files[0] + [r.bytes];
        Assoc(Flatten(away), before.files[0], [r.bytes]);
      }
    }
  }

  /** The files on disk are the newest of all the files there ever were. */
  lemma DiskIsNewest(files: map<nat, File>, keep: nat, history: seq<File>)
    requires ArchivesAre(files, keep, history) && 0 in files
    ensures var n := if |history| < keep then |history| else keep;
            && (forall i: nat :: i in files <==> i <= n)
            && history + [files[0]] == history[..|history| - n] + Disk(files, n)
  {
  }

  function OnDisk(m: Mode, history: seq<File>): nat {
    if |history| < Kept(m) then |history| else Kept(m)
  }

  /** Rotation retains a suffix.  From contiguous archives 1..n (the newest files of any
      history) and any active file, after any run the files on disk are contiguous archives,
      at most keep of them, and from the oldest archive to the active file they hold, record
      by record, a suffix of everything that was there and everything written since. */
  lemma RetainsSuffix(s: Store, m: Mode, records: seq<Record>, history: seq<File>)
    requires Sound(s, m, history)
    ensures var all := history + RotatedAway(s, m, records);
            var n, files := OnDisk(m, all), Run(s, m, records).files;
            && (forall i: nat :: i in files <==> i <= n)
            && Flatten(history) + (s.files[0] + Payload(records)) ==
               Flatten(all[..|all| - n]) + Flatten(Disk(files, n))
  {
    var away, files := RotatedAway(s, m, records), Run(s, m, records).files;
    var all := history + away;
    var n := OnDisk(m, all);
    ArchivesAreNewest(s, m, records, history);
    NothingLostBeforeTheCut(s, m, records);
    DiskIsNewest(files, Kept(m), all);
    var older, disk, written := all[..|all| - n], Disk(files, n), s.files[0] + Payload(records);
    FlattenConcat(older, disk);
    FlattenConcat(history, away);
    FlattenAppends(all, files[0]);
    Assoc(Flatten(history), Flatten(away), files[0]);
    assert Flatten(history) + written == Flatten(older) + Flatten(disk);
  }

  /** A directory without any file of the sink, just after opening. */
  function Fresh(openedDay: string): (s: Store)
    ensures 0 in s.files
  {
    Store(map[0 := []], openedDay, 0)
  }

  function FilesAfter(m: Mode, records: seq<Record>, openedDay: string): map<nat, File> {
    Run(Fresh(openedDay), m, records).files
  }

  function ArchivesAfter(m: Mode, records: seq<Record>, openedDay: string): nat {
    OnDisk(m, RotatedAway(Fresh(openedDay), m, records))
  }

  lemma FreshRetainsSuffix(m: Mode, records: seq<Record>, openedDay: string) returns (lost: File)
    ensures forall i: nat :: i in FilesAfter(m, records, openedDay) <==> i <= ArchivesAfter(m, records, openedDay)
    ensures Payload(records) ==
            lost + Flatten(Disk(FilesAfter(m, records, openedDay), ArchivesAfter(m, records, openedDay)))
  {
    var s := Fresh(openedDay);
    RetainsSuffix(s, m, records, []);
    var away, n := RotatedAway(s, m, records), ArchivesAfter(m, records, openedDay);
    NoHistory(away);
    lost := Flatten(away[..|away| - n]);
    FlatNothing(Payload(records));
  }

  lemma NoHistory(away: seq<File>)
    ensures [] + away == away
  {
  }

  lemma FlatNothing(f: File)
    ensures Flatten([]) + ([] + f) == f
  {
  }

  lemma Assoc(a: File, b: File, c: File)
    ensures a + (b + c) == a + b + c
  {
  }

  // ---------------------------------------------------------------- one file a day

  function CurrentDay(day: string, records: seq<Record>): string {
    if records == [] then day else records[|records| - 1].today
  }

  /** Consecutive records of the same date, the first group with the opening date. */
  function ByDay(day: string, records: seq<Record>): (groups: seq<seq<Record>>)
    ensures groups != []
  {
    if records == [] then [[]]
    else
      var before, r := ByDay(day, records[..|records| - 1]), records[|records| - 1];
      if r.today == CurrentDay(day, records[..|records| - 1])
      then before[..|before| - 1] + [before[|before| - 1] + [r]]
      else before + [[r]]
  }

  function Payloads(groups: seq<seq<Record>>): (files: seq<File>)
    ensures |files| == |groups|
  {
    seq(|groups|, i requires 0 <= i < |groups| => Payload(groups[i]))
  }

  /** The dates of the groups. */
  function Days(day: string, records: seq<Record>): (days: seq<string>)
    ensures days != []
  {
    if records == [] then [day]
    else
      var before, r := Days(day, records[..|records| - 1]), records[|records| - 1];
      if r.today == CurrentDay(day, records[..|records| - 1]) then before else before + [r.today]
  }

  predicate AllOn(group: seq<Record>, day: string) {
    forall k | 0 <= k < |group| :: group[k].today == day
  }

  predicate DayChangesAfter(days: seq<string>, i: nat)
    requires i + 1 < |days|
  {
    days[i] != days[i + 1]
  }

  /** Each group has one date, and neighbours differ. */
  ghost predicate Grouped(groups: seq<seq<Record>>, days: seq<string>) {
    && |groups| == |days|
    && (forall i | 0 <= i < |groups| :: AllOn(groups[i], days[i]))
    && (forall i: nat | i + 1 < |days| :: DayChangesAfter(days, i))
  }

  lemma JoinsGroup(groups: seq<seq<Record>>, days: seq<string>, r: Record)
    requires Grouped(groups, days) && groups != [] && r.today == days[|days| - 1]
    ensures Grouped(groups[..|groups| - 1] + [groups[|groups| - 1] + [r]], days)
  {
    assert AllOn(groups[|groups| - 1], days[|days| - 1]);
  }

  lemma StartsGroup(groups: seq<seq<Record>>, days: seq<string>, r: Record)
    requires Grouped(groups, days) && groups != [] && r.today != days[|days| - 1]
    ensures Grouped(groups + [[r]], days + [r.today])
  {
    var days' := days + [r.today];
    forall i: nat | i + 1 < |days'| ensures DayChangesAfter(days', i) {
      if i + 1 < |days| {
        assert DayChangesAfter(days, i);
      }
    }
  }

  /** The grouping is by date. */
  lemma {:induction false} GroupsAreDays(day: string, records: seq<Record>)
    ensures Grouped(ByDay(day, records), Days(day, records))
    ensures Days(day, records)[|Days(day, records)| - 1] == CurrentDay(day, records)
  {
    if records != [] {
      var init, r := records[..|records| - 1], records[|records| - 1];
      GroupsAreDays(day, init);
      if r.today == CurrentDay(day, init) {
        JoinsGroup(ByDay(day, init), Days(day, init), r);
      } else {
        StartsGroup(ByDay(day, init), Days(day, init), r);
      }
    }
  }

  lemma PayloadsOf(groups: seq<seq<Record>>, last: seq<Record>)
    ensures Payloads(groups + [last]) == Payloads(groups) + [Payload(last)]
  {
  }

  lemma PayloadOf(group: seq<Record>, r: Record)
    ensures Payload(group + [r]) == Payload(group) + [r.bytes]
  {
  }

  /** Files that go on from an old one: the first of them is appended to it. */
  function Continued(before: File, files: seq<File>): (r: seq<File>)
    requires files != []
    ensures |r| == |files|
  {
    [before + files[0]] + files[1..]
  }

  lemma ContinuedOpens(before: File, files: seq<File>, f: File)
    requires files != []
    ensures Continued(before, files + [f]) == Continued(before, files) + [f]
  {
    assert (files + [f])[1..] == files[1..] + [f];
  }

  lemma ContinuedGrows(before: File, older: seq<File>, last: File, x: string)
    ensures var files := Continued(before, older + [last]);
            Continued(before, older + [last + [x]]) == files[..|files| - 1] + [files[|files| - 1] + [x]]
  {
    if older == [] {
      assert [last][1..] == [] && [last + [x]][1..] == [];
      Assoc(before, last, [x]);
    } else {
      ContinuedOpens(before, older, last);
      ContinuedOpens(before, older, last + [x]);
    }
  }

  /** Day mode, from any store: the files produced from then on are the groups of records of one
      date, in order, the first group appended to what the active file held.  So every
      rotation happens at a change from the date of opening or of the record before, and at
      every one; what a reopened file already held counts as of the date of opening. */
  lemma {:induction false} DayModeFiles(s: Store, m: Mode, records: seq<Record>)
    requires m.NewDayBegins? && 0 in s.files
    requires s.openedDay != "" && forall k | 0 <= k < |records| :: records[k].today != ""
    ensures Produced(s, m, records) == Continued(s.files[0], Payloads(ByDay(s.openedDay, records)))
    ensures Run(s, m, records).openedDay == CurrentDay(s.openedDay, records)
  {
    var day := s.openedDay;
    if records == [] {
      assert Produced(s, m, []) == [s.files[0]];
      assert Payload([]) == [] && s.files[0] + [] == s.files[0];
      assert Payloads([[]])[1..] == [];
    } else {
      var init, r := records[..|records| - 1], records[|records| - 1];
      DayModeFiles(s, m, init);
      ProducedStep(s, m, records);
      DayStep(s.files[0], ByDay(day, init), r, RotatedAway(s, m, init), Run(s, m, init).files[0]);
    }
  }

  /** One more record: it goes into the last group, or it begins a new one. */
  lemma DayStep(before: File, groups: seq<seq<Record>>, r: Record, away: seq<File>, active: File)
    requires groups != [] && away + [active] == Continued(before, Payloads(groups))
    ensures away + [active + [r.bytes]] ==
            Continued(before, Payloads(groups[..|groups| - 1] + [groups[|groups| - 1] + [r]]))
    ensures (away + [active]) + [[r.bytes]] == Continued(before, Payloads(groups + [[r]]))
  {
    var older, last := groups[..|groups| - 1], groups[|groups| - 1];
    assert groups == older + [last];
    PayloadsOf(older, last);
    PayloadsOf(older, last + [r]);
    PayloadOf(last, r);
    ContinuedGrows(before, Payloads(older), Payload(last), r.bytes);
    PayloadsOf(groups, [r]);
    PayloadOf([], r);
    assert [] + [r] == [r] && [] + [r.bytes] == [r.bytes] && Payload([]) == [];
    ContinuedOpens(before, Payloads(groups), [r.bytes]);
  }

  // ---------------------------------------------------------------- size bounds

  /** At most max bytes, or a single record. */
  predicate Bounded(f: File, maxBytes: nat) {
    Size(f) <= maxBytes || |f| == 1
  }

  /** f was rotated away because the first record of its successor did not fit. */
  predicate FullBefore(f: File, successor: File, maxBytes: nat) {
    successor != [] && Size(f) + |successor[0]| > maxBytes
  }

  ghost predicate AllBounded(files: seq<File>, maxBytes: nat) {
    forall k | 0 <= k < |files| :: Bounded(files[k], maxBytes)
  }

  ghost predicate Chained(files: seq<File>, maxBytes: nat) {
    forall k | 0 <= k < |files| - 1 :: FullBefore(files[k], files[k + 1], maxBytes)
  }

  /** Every file a run has produced, oldest first, the active one last. */
  function Produced(s: Store, m: Mode, records: seq<Record>): seq<File>
    requires 0 in s.files
  {
    RotatedAway(s, m, records) + [Run(s, m, records).files[0]]
  }

  lemma ChainGrows(files: seq<File>, last: File, x: string, maxBytes: nat)
    requires Chained(files + [last], maxBytes) && AllBounded(files, maxBytes)
    requires Size(last) + |x| <= maxBytes
    ensures Chained(files + [last + [x]], maxBytes) && AllBounded(files + [last + [x]], maxBytes)
  {
    SizeAppends(last, x);
    forall k | 0 <= k < |files| ensures FullBefore((files + [last + [x]])[k], (files + [last + [x]])[k + 1], maxBytes) {
      assert FullBefore((files + [last])[k], (files + [last])[k + 1], maxBytes);
    }
  }

  lemma ChainExtends(files: seq<File>, last: File, x: string, maxBytes: nat)
    requires Chained(files + [last], maxBytes) && AllBounded(files + [last], maxBytes)
    requires Size(last) + |x| > maxBytes
    ensures Chained(files + [last] + [[x]], maxBytes) && AllBounded(files + [last] + [[x]], maxBytes)
  {
    var all := files + [last] + [[x]];
    forall k | 0 <= k < |all| - 1 ensures FullBefore(all[k], all[k + 1], maxBytes) {
      if k < |files| {
        assert FullBefore((files + [last])[k], (files + [last])[k + 1], maxBytes);
      }
    }
    forall k | 0 <= k < |all| ensures Bounded(all[k], maxBytes) {
      if k < |files| + 1 {
        assert Bounded((files + [last])[k], maxBytes);
      }
    }
  }

  /** Size mode, from an active file of at most max bytes: the size counter is always the
      length of the active file, every file ever produced is at most max bytes or a single
      record, and every rotated file together with the first record of the next exceeds
      max. */
  lemma {:induction false} SizeModeFiles(s: Store, m: Mode, records: seq<Record>)
    requires m.FileSizeExceeds? && 0 in s.files && s.currentSize == Size(s.files[0]) <= m.maxBytes
    ensures var last := Run(s, m, records);
            && last.currentSize == Size(last.files[0])
            && AllBounded(Produced(s, m, records), m.maxBytes)
            && Chained(Produced(s, m, records), m.maxBytes)
  {
    if records == [] {
      assert Produced(s, m, records) == [s.files[0]];
    } else {
      var init, r := records[..|records| - 1], records[|records| - 1];
      SizeModeFiles(s, m, init);
      var before, away := Run(s, m, init), RotatedAway(s, m, init);
      assert Produced(s, m, init) == away + [before.files[0]];
      SizeAppends([], r.bytes);
      SizeAppends(before.files[0], r.bytes);
      if ShouldRotate(m, before.currentSize, |r.bytes|, before.openedDay, r.today) {
        ChainExtends(away, before.files[0], r.bytes, m.maxBytes);
        assert Produced(s, m, records) == away + [before.files[0]] + [[r.bytes]];
      } else {
        assert forall k | 0 <= k < |away| :: away[k] == (away + [before.files[0]])[k];
        ChainGrows(away, before.files[0], r.bytes, m.maxBytes);
        assert Produced(s, m, records) == away + [before.files[0] + [r.bytes]];
      }
    }
  }

  function TotalSize(files: seq<File>): nat {
    if files == [] then 0 else TotalSize(files[..|files| - 1]) + Size(files[|files| - 1])
  }

  ghost predicate PairsExceed(files: seq<File>, maxBytes: nat) {
    forall k | 0 <= k < |files| - 1 :: Size(files[k]) + Size(files[k + 1]) > maxBytes
  }

  /** Neighbours that together exceed max, taken in disjoint pairs. */
  lemma {:induction false} PairsAddUp(files: seq<File>, maxBytes: nat)
    requires PairsExceed(files, maxBytes)
    ensures TotalSize(files) >= (|files| / 2) * (maxBytes + 1)
    decreases |files|
  {
    if |files| >= 2 {
      var rest := files[..|files| - 2];
      PairsAddUp(rest, maxBytes);
      assert files[..|files| - 1][..|files| - 2] == rest;
      assert |files| / 2 == |rest| / 2 + 1;
      assert (|rest| / 2 + 1) * (maxBytes + 1) == (|rest| / 2) * (maxBytes + 1) + (maxBytes + 1);
      assert Size(files[|files| - 2]) + Size(files[|files| - 2 + 1]) > maxBytes;
    }
  }

  lemma {:induction false} AllSmall(files: seq<File>, maxBytes: nat)
    requires forall k | 0 <= k < |files| :: Size(files[k]) <= maxBytes
    ensures TotalSize(files) <= |files| * maxBytes
  {
    if files != [] {
      AllSmall(files[..|files| - 1], maxBytes);
      assert (|files| - 1) * maxBytes + maxBytes == |files| * maxBytes;
    }
  }

  lemma SizeOfFirst(f: File)
    requires f != []
    ensures |f[0]| <= Size(f)
  {
    FirstFits(f, |f|);
    assert f[..|f|] == f;
  }

  lemma {:induction false} FirstFits(f: File, n: nat)
    requires 1 <= n <= |f|
    ensures |f[0]| <= Size(f[..n])
  {
    assert f[..n][..n - 1] == f[..n - 1];
    if n > 1 {
      FirstFits(f, n - 1);
    }
  }

  lemma ChainExceeds(files: seq<File>, maxBytes: nat)
    requires Chained(files, maxBytes)
    ensures PairsExceed(files, maxBytes)
  {
    forall k | 0 <= k < |files| - 1 ensures Size(files[k]) + Size(files[k + 1]) > maxBytes {
      assert FullBefore(files[k], files[k + 1], maxBytes);
      SizeOfFirst(files[k + 1]);
    }
  }

  lemma ChainSuffix(files: seq<File>, cut: nat, maxBytes: nat)
    requires cut <= |files| && Chained(files, maxBytes) && AllBounded(files, maxBytes)
    ensures Chained(files[cut..], maxBytes) && AllBounded(files[cut..], maxBytes)
  {
    forall k | 0 <= k < |files[cut..]| - 1 ensures FullBefore(files[cut..][k], files[cut..][k + 1], maxBytes) {
      assert FullBefore(files[cut + k], files[cut + k + 1], maxBytes);
    }
  }

  lemma ChainBounds(files: seq<File>, maxBytes: nat)
    requires Chained(files, maxBytes) && AllBounded(files, maxBytes) && |files| >= 2
    ensures TotalSize(files) > maxBytes * (|files| / 2)
    ensures (forall k | 0 <= k < |files| && |files[k]| == 1 :: Size(files[k]) <= maxBytes) ==>
              TotalSize(files) <= |files| * maxBytes
  {
    ChainExceeds(files, maxBytes);
    PairsAddUp(files, maxBytes);
    HalfMore(|files| / 2, maxBytes);
    if forall k | 0 <= k < |files| && |files[k]| == 1 :: Size(files[k]) <= maxBytes {
      forall k | 0 <= k < |files| ensures Size(files[k]) <= maxBytes {
        assert Bounded(files[k], maxBytes);
      }
      AllSmall(files, maxBytes);
    }
  }

  lemma HalfMore(h: nat, max: nat)
    requires h >= 1
    ensures h * (max + 1) > max * h
  {
  }

  /** Retention in size mode.  Once at least keep rotations have happened, the keep archives
      and the active file hold more than max * floor((keep + 1) / 2) bytes, and at most
      (keep + 1) * max if no single record among them exceeds max. */
  lemma RetentionBounds(s: Store, m: Mode, records: seq<Record>)
    requires m.FileSizeExceeds? && m.keepFiles >= 1
    requires Sound(s, m, []) && s.currentSize <= m.maxBytes
    requires |RotatedAway(s, m, records)| >= m.keepFiles
    ensures var files, keep := Run(s, m, records).files, m.keepFiles;
            && (forall i: nat :: i in files <==> i <= keep)
            && TotalSize(Disk(files, keep)) > m.maxBytes * ((keep + 1) / 2)
            && ((forall i: nat | i <= keep && |files[i]| == 1 :: Size(files[i]) <= m.maxBytes) ==>
                  TotalSize(Disk(files, keep)) <= (keep + 1) * m.maxBytes)
  {
    var files, keep := Run(s, m, records).files, m.keepFiles;
    KeptDisk(s, m, records);
    DiskBounds(files, keep, m.maxBytes);
  }

  lemma DiskBounds(files: map<nat, File>, keep: nat, maxBytes: nat)
    requires keep >= 1 && forall i: nat :: i in files <==> i <= keep
    requires Chained(Disk(files, keep), maxBytes) && AllBounded(Disk(files, keep), maxBytes)
    ensures TotalSize(Disk(files, keep)) > maxBytes * ((keep + 1) / 2)
    ensures (forall i: nat | i <= keep && |files[i]| == 1 :: Size(files[i]) <= maxBytes) ==>
              TotalSize(Disk(files, keep)) <= (keep + 1) * maxBytes
  {
    var disk := Disk(files, keep);
    ChainBounds(disk, maxBytes);
    if forall i: nat | i <= keep && |files[i]| == 1 :: Size(files[i]) <= maxBytes {
      forall k | 0 <= k < |disk| && |disk[k]| == 1 ensures Size(disk[k]) <= maxBytes {
        assert disk[k] == files[keep - k];
      }
    }
  }

  lemma KeptDisk(s: Store, m: Mode, records: seq<Record>)
    requires m.FileSizeExceeds? && m.keepFiles >= 1
    requires Sound(s, m, []) && s.currentSize <= m.maxBytes
    requires |RotatedAway(s, m, records)| >= m.keepFiles
    ensures forall i: nat :: i in Run(s, m, records).files <==> i <= m.keepFiles
    ensures var disk := Disk(Run(s, m, records).files, m.keepFiles);
            Chained(disk, m.maxBytes) && AllBounded(disk, m.maxBytes)
  {
    var away, files := RotatedAway(s, m, records), Run(s, m, records).files;
    ArchivesAreNewest(s, m, records, []);
    NoHistory(away);
    DiskIsNewest(files, m.keepFiles, away);
    SizeModeFiles(s, m, records);
    ChainSuffix(Produced(s, m, records), |away| - m.keepFiles, m.maxBytes);
    SuffixIs(away[..|away| - m.keepFiles], Disk(files, m.keepFiles));
  }

  lemma SuffixIs(a: seq<File>, b: seq<File>)
    ensures (a + b)[|a|..] == b
  {
  }

  // ---------------------------------------------------------------- size bounds with a daily rotation too

  /** The modes with a size limit. */
  predicate Limited(m: Mode) {
    m.FileSizeExceeds? || m.FileSizeExceedsOrNewDayBegins?
  }

  lemma BoundedExtends(files: seq<File>, last: File, maxBytes: nat)
    requires AllBounded(files, maxBytes) && Bounded(last, maxBytes)
    ensures AllBounded(files + [last], maxBytes)
  {
  }

  lemma BoundedPrefix(files: seq<File>, last: File, maxBytes: nat)
    requires AllBounded(files + [last], maxBytes)
    ensures AllBounded(files, maxBytes)
  {
    assert forall k | 0 <= k < |files| :: files[k] == (files + [last])[k];
  }

  /** In both modes with a size limit, whatever the dates: the size counter is always the length
      of the active file, and every file ever produced is at most max bytes or one record. */
  lemma {:induction false} LimitedModeFiles(s: Store, m: Mode, records: seq<Record>)
    requires Limited(m) && 0 in s.files && s.currentSize == Size(s.files[0]) <= m.maxBytes
    ensures var last := Run(s, m, records);
            last.currentSize == Size(last.files[0]) && AllBounded(Produced(s, m, records), m.maxBytes)
  {
    if records == [] {
      assert Produced(s, m, records) == [s.files[0]];
    } else {
      var init, r := records[..|records| - 1], records[|records| - 1];
      LimitedModeFiles(s, m, init);
      var before, away := Run(s, m, init), RotatedAway(s, m, init);
      var rotates := ShouldRotate(m, before.currentSize, |r.bytes|, before.openedDay, r.today);
      ProducedStep(s, m, records);
      BoundedPrefix(away, before.files[0], m.maxBytes);
      if rotates {
        SizeOfOne(r.bytes);
        BoundedExtends(away + [before.files[0]], [r.bytes], m.maxBytes);
      } else {
        SizeAppends(before.files[0], r.bytes);
        assert !TooBig(m.maxBytes, before.currentSize, |r.bytes|);
        assert Bounded(before.files[0] + [r.bytes], m.maxBytes);
        BoundedExtends(away, before.files[0] + [r.bytes], m.maxBytes);
      }
    }
  }

  lemma SizeOfOne(bytes: string)
    ensures Size([bytes]) == |bytes|
  {
    assert [bytes][..0] == [];
  }

  /** What the last of some writes adds to the files ever produced. */
  lemma ProducedStep(s: Store, m: Mode, records: seq<Record>)
    requires 0 in s.files && records != []
    ensures var init, r := records[..|records| - 1], records[|records| - 1];
            var before, away, last := Run(s, m, init), RotatedAway(s, m, init), Run(s, m, records);
            if ShouldRotate(m, before.currentSize, |r.bytes|, before.openedDay, r.today)
            then && Produced(s, m, records) == (away + [before.files[0]]) + [[r.bytes]]
                 && last.files[0] == [r.bytes] && last.currentSize == |r.bytes|
            else && Produced(s, m, records) == away + [before.files[0] + [r.bytes]]
                 && last.files[0] == before.files[0] + [r.bytes] && last.currentSize == before.currentSize + |r.bytes|
  {
    assert [] + [records[|records| - 1].bytes] == [records[|records| - 1].bytes];
  }

  /** In both modes, after any number of rotations: if no single record among the retained
      files exceeds max, the n archives and the active file hold at most (n + 1) * max. */
  lemma RetentionUpperBound(s: Store, m: Mode, records: seq<Record>)
    requires Limited(m) && Sound(s, m, []) && s.currentSize <= m.maxBytes
    ensures var files, n := Run(s, m, records).files, OnDisk(m, RotatedAway(s, m, records));
            && n <= Kept(m)
            && (forall i: nat :: i in files <==> i <= n)
            && UpperBounded(files, n, m.maxBytes)
  {
    var files, n := Run(s, m, records).files, OnDisk(m, RotatedAway(s, m, records));
    LimitedModeFiles(s, m, records);
    var older := NewestOnDisk(s, m, records);
    assert AllBounded(older + Disk(files, n), m.maxBytes);
    UpperBoundOf(files, n, m.maxBytes, older);
  }

  /** If no single record exceeds max, n archives and the active file hold at most
      (n + 1) * max. */
  ghost predicate UpperBounded(files: map<nat, File>, n: nat, maxBytes: nat)
    requires forall i: nat :: i in files <==> i <= n
  {
    (forall i: nat | i <= n && |files[i]| == 1 :: Size(files[i]) <= maxBytes) ==>
      TotalSize(Disk(files, n)) <= (n + 1) * maxBytes
  }

  lemma NewestOnDisk(s: Store, m: Mode, records: seq<Record>) returns (older: seq<File>)
    requires Sound(s, m, [])
    ensures var files, n := Run(s, m, records).files, OnDisk(m, RotatedAway(s, m, records));
            && (forall i: nat :: i in files <==> i <= n)
            && Produced(s, m, records) == older + Disk(files, n)
  {
    var away := RotatedAway(s, m, records);
    ArchivesAreNewest(s, m, records, []);
    NoHistory(away);
    DiskIsNewest(Run(s, m, records).files, Kept(m), away);
    older := away[..|away| - OnDisk(m, away)];
  }

  lemma UpperBoundOf(files: map<nat, File>, n: nat, maxBytes: nat, older: seq<File>)
    requires forall i: nat :: i in files <==> i <= n
    requires AllBounded(older + Disk(files, n), maxBytes)
    ensures UpperBounded(files, n, maxBytes)
  {
    var disk := Disk(files, n);
    if forall i: nat | i <= n && |files[i]| == 1 :: Size(files[i]) <= maxBytes {
      forall k | 0 <= k < |disk| ensures Size(disk[k]) <= maxBytes {
        assert disk[k] == files[n - k];
        assert Bounded((older + disk)[|older| + k], maxBytes);
      }
      AllSmall(disk, maxBytes);
    }
  }
}
