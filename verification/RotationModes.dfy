/**
The rotation modes one by one: which records go into which file when a file is cut at its size
limit and at every change of date, when nothing rotates, and how many archives stay.
*/
module RotationModes {
  import opened FileSink

  // ---------------------------------------------------------------- size and date together

  /** The bytes in the last file: what an old first file already held counts too. */
  function LastSize(held: nat, groups: seq<seq<Record>>): nat
    requires groups != []
  {
    (if |groups| == 1 then held else 0) + Size(Payload(groups[|groups| - 1]))
  }

  /** The records, cut wherever the date is another one or the next record does not fit. */
  function Cuts(day: string, held: nat, maxBytes: nat, records: seq<Record>): (groups: seq<seq<Record>>)
    ensures groups != []
  {
    if records == [] then [[]]
    else
      var init, r := records[..|records| - 1], records[|records| - 1];
      var before := Cuts(day, held, maxBytes, init);
      if r.today != CurrentDay(day, init) || LastSize(held, before) + |r.bytes| > maxBytes
      then before + [[r]]
      else before[..|before| - 1] + [before[|before| - 1] + [r]]
  }

  /** The size-or-day mode, from any store: the files produced from then on are the groups of
      `Cuts`, in order, the first group appended to what the active file held. */
  lemma {:induction false} CombinedModeFiles(s: Store, m: Mode, records: seq<Record>)
    requires m.FileSizeExceedsOrNewDayBegins? && 0 in s.files && s.currentSize == Size(s.files[0])
    requires s.openedDay != "" && forall k | 0 <= k < |records| :: records[k].today != ""
    ensures var groups := Cuts(s.openedDay, s.currentSize, m.maxBytes, records);
            && Produced(s, m, records) == Continued(s.files[0], Payloads(groups))
            && Run(s, m, records).currentSize == LastSize(s.currentSize, groups)
    ensures Run(s, m, records).openedDay == CurrentDay(s.openedDay, records)
  {
    if records == [] {
      NothingYet(s.files[0]);
    } else {
      var init, r := records[..|records| - 1], records[|records| - 1];
      CombinedModeFiles(s, m, init);
      var groups, before := Cuts(s.openedDay, s.currentSize, m.maxBytes, init), Run(s, m, init);
      RotatesWhen(before, m, r);
      ProducedStep(s, m, records);
      DayStep(s.files[0], groups, r, RotatedAway(s, m, init), before.files[0]);
      LastSizeStep(s.currentSize, groups, r);
    }
  }

  lemma NothingYet(active: File)
    ensures [] + [active] == Continued(active, Payloads([[]]))
    ensures Size(Payload([])) == 0
  {
    assert Payload([]) == [] && active + [] == active;
    assert Payloads([[]])[1..] == [];
  }

  lemma RotatesWhen(s: Store, m: Mode, r: Record)
    requires m.FileSizeExceedsOrNewDayBegins? && s.openedDay != "" && r.today != ""
    ensures ShouldRotate(m, s.currentSize, |r.bytes|, s.openedDay, r.today)
            <==> r.today != s.openedDay || s.currentSize + |r.bytes| > m.maxBytes
  {
  }

  lemma LastSizeStep(held: nat, groups: seq<seq<Record>>, r: Record)
    requires groups != []
    ensures LastSize(held, groups[..|groups| - 1] + [groups[|groups| - 1] + [r]]) == LastSize(held, groups) + |r.bytes|
    ensures LastSize(held, groups + [[r]]) == |r.bytes|
  {
    var last := groups[|groups| - 1];
    PayloadOf(last, r);
    SizeAppends(Payload(last), r.bytes);
    assert Payload([r]) == [r.bytes];
    SizeOfOne(r.bytes);
  }

  /** Record k of a group has the date of the record before it, or of opening, and it fitted after
      the records before it and what the file already held. */
  ghost predicate InPlace(group: seq<Record>, k: nat, day: string, held: nat, maxBytes: nat)
    requires k < |group|
  {
    && group[k].today == (if k > 0 then group[k - 1].today else day)
    && held + Size(Payload(group[..k])) + |group[k].bytes| <= maxBytes
  }

  /** A file that was there before the first of its records, or was begun for it. */
  ghost predicate OneFile(group: seq<Record>, existed: bool, day: string, held: nat, maxBytes: nat) {
    && (!existed ==> group != [])
    && (forall k: nat | k < |group| && (existed || k > 0) :: InPlace(group, k, day, held, maxBytes))
  }

  /** The next file was begun because its first record has another date than the record before it,
      or did not fit. */
  ghost predicate Justified(group: seq<Record>, next: seq<Record>, day: string, held: nat, maxBytes: nat) {
    && next != []
    && (|| next[0].today != CurrentDay(day, group)
        || held + Size(Payload(group)) + |next[0].bytes| > maxBytes)
  }

  function HeldBy(held: nat, i: nat): nat {
    if i == 0 then held else 0
  }

  ghost predicate CutExactly(groups: seq<seq<Record>>, day: string, held: nat, maxBytes: nat) {
    && (forall i: nat | i < |groups| :: OneFile(groups[i], i == 0, day, HeldBy(held, i), maxBytes))
    && (forall i: nat | i + 1 < |groups| :: JustifiedAt(groups, i, day, held, maxBytes))
  }

  ghost predicate JustifiedAt(groups: seq<seq<Record>>, i: nat, day: string, held: nat, maxBytes: nat)
    requires i + 1 < |groups|
  {
    Justified(groups[i], groups[i + 1], day, HeldBy(held, i), maxBytes)
  }

  function Joined(groups: seq<seq<Record>>): seq<Record> {
    if groups == [] then [] else Joined(groups[..|groups| - 1]) + groups[|groups| - 1]
  }

  /** What the groups are: all the records in their order; no group holds two dates or more than
      fits, and every cut had to be made. */
  lemma {:induction false} CutsExactly(day: string, held: nat, maxBytes: nat, records: seq<Record>)
    ensures var groups := Cuts(day, held, maxBytes, records);
            && Joined(groups) == records
            && CutExactly(groups, day, held, maxBytes)
            && CurrentDay(day, groups[|groups| - 1]) == CurrentDay(day, records)
  {
    if records != [] {
      var init, r := records[..|records| - 1], records[|records| - 1];
      var before := Cuts(day, held, maxBytes, init);
      CutsExactly(day, held, maxBytes, init);
      CutsStep(day, held, maxBytes, records);
      if r.today != CurrentDay(day, init) || LastSize(held, before) + |r.bytes| > maxBytes {
        BeginsFile(before, r, day, held, maxBytes);
        JoinedAppends(before, [r]);
      } else {
        GoesOn(before, r, day, held, maxBytes);
      }
    } else {
      NothingCut(day, held, maxBytes);
    }
  }

  lemma NothingCut(day: string, held: nat, maxBytes: nat)
    ensures Joined([[]]) == [] && CutExactly([[]], day, held, maxBytes)
  {
    JoinedAppends([], []);
    var none: seq<seq<Record>> := [];
    assert none + [[]] == [[]];
  }

  lemma CutsStep(day: string, held: nat, maxBytes: nat, records: seq<Record>)
    requires records != []
    ensures var init, r := records[..|records| - 1], records[|records| - 1];
            var before := Cuts(day, held, maxBytes, init);
            && records == init + [r]
            && Cuts(day, held, maxBytes, records) ==
               if r.today != CurrentDay(day, init) || LastSize(held, before) + |r.bytes| > maxBytes
               then before + [[r]]
               else before[..|before| - 1] + [before[|before| - 1] + [r]]
  {
  }

  lemma BeginsFile(groups: seq<seq<Record>>, r: Record, day: string, held: nat, maxBytes: nat)
    requires groups != [] && CutExactly(groups, day, held, maxBytes)
    requires r.today != CurrentDay(day, groups[|groups| - 1]) || LastSize(held, groups) + |r.bytes| > maxBytes
    ensures CutExactly(groups + [[r]], day, held, maxBytes)
  {
    var groups', n := groups + [[r]], |groups|;
    AloneInFile(r, day, maxBytes);
    forall i: nat | i < |groups'| ensures OneFile(groups'[i], i == 0, day, HeldBy(held, i), maxBytes) {
      assert i < n ==> groups'[i] == groups[i];
    }
    forall i: nat | i + 1 < |groups'| ensures JustifiedAt(groups', i, day, held, maxBytes) {
      assert i + 1 < n ==> JustifiedAt(groups, i, day, held, maxBytes);
    }
  }

  lemma AloneInFile(r: Record, day: string, maxBytes: nat)
    ensures OneFile([r], false, day, 0, maxBytes)
  {
  }

  lemma JoinedAppends(groups: seq<seq<Record>>, last: seq<Record>)
    ensures Joined(groups + [last]) == Joined(groups) + last
  {
    assert (groups + [last])[..|groups|] == groups;
  }

  lemma GoesOn(groups: seq<seq<Record>>, r: Record, day: string, held: nat, maxBytes: nat)
    requires groups != [] && CutExactly(groups, day, held, maxBytes)
    requires r.today == CurrentDay(day, groups[|groups| - 1]) && LastSize(held, groups) + |r.bytes| <= maxBytes
    ensures var groups' := groups[..|groups| - 1] + [groups[|groups| - 1] + [r]];
            CutExactly(groups', day, held, maxBytes) && Joined(groups') == Joined(groups) + [r]
  {
    var n, last := |groups| - 1, groups[|groups| - 1];
    var groups' := groups[..n] + [last + [r]];
    OneMore(last, r, n == 0, day, HeldBy(held, n), maxBytes);
    forall i: nat | i + 1 < |groups'| ensures JustifiedAt(groups', i, day, held, maxBytes) {
      assert JustifiedAt(groups, i, day, held, maxBytes);
    }
    assert groups'[..n] == groups[..n];
    assert Joined(groups[..n]) + (last + [r]) == Joined(groups[..n]) + last + [r];
  }

  lemma OneMore(group: seq<Record>, r: Record, existed: bool, day: string, held: nat, maxBytes: nat)
    requires OneFile(group, existed, day, held, maxBytes)
    requires r.today == CurrentDay(day, group) && held + Size(Payload(group)) + |r.bytes| <= maxBytes
    ensures OneFile(group + [r], existed, day, held, maxBytes)
  {
    var longer := group + [r];
    forall k: nat | k < |longer| && (existed || k > 0) ensures InPlace(longer, k, day, held, maxBytes) {
      if k < |group| {
        assert InPlace(group, k, day, held, maxBytes);
        assert longer[..k] == group[..k];
      } else {
        assert longer[..k] == group;
      }
    }
  }

  // ---------------------------------------------------------------- no rotation

  /** Without a rotation mode everything goes into the active file, and no archive changes. */
  lemma {:induction false} NeverRotates(s: Store, records: seq<Record>)
    requires 0 in s.files
    ensures RotatedAway(s, Never, records) == []
    ensures Run(s, Never, records).files == s.files[0 := s.files[0] + Payload(records)]
  {
    if records == [] {
      assert s.files[0] + Payload([]) == s.files[0];
    } else {
      var init, r := records[..|records| - 1], records[|records| - 1];
      NeverRotates(s, init);
      assert Payload(records) == Payload(init) + [r.bytes];
      Assoc(s.files[0], Payload(init), [r.bytes]);
    }
  }

  /** An unknown date, of opening or of the write, never rotates: the day mode then only appends,
      and the size-or-day mode is the size mode. */
  lemma UnknownDateIsNoChange(s: Store, maxBytes: nat, keepFiles: int, bytes: string, today: string)
    requires 0 in s.files && (s.openedDay == "" || today == "")
    ensures Written(s, NewDayBegins(keepFiles), bytes, today) == Appended(s, bytes)
    ensures Written(s, FileSizeExceedsOrNewDayBegins(maxBytes, keepFiles), bytes, today) ==
            Written(s, FileSizeExceeds(maxBytes, keepFiles), bytes, today)
  {
  }

  // ---------------------------------------------------------------- how many archives stay

  /** In every mode that rotates, starting without archives: of the files rotated away just the
      newest keep_files remain, the newest of all as archive 1; none if keep_files is 0 or
      negative. */
  lemma ArchivesThatStay(s: Store, m: Mode, records: seq<Record>)
    requires !m.Never? && 0 in s.files && s.currentSize == Size(s.files[0])
    requires forall i | i in s.files :: i == 0
    ensures var files, away := Run(s, m, records).files, RotatedAway(s, m, records);
            && (forall i: nat | 1 <= i :: i in files <==> i <= m.keepFiles && i <= |away|)
            && (forall i: nat | 1 <= i && i in files :: files[i] == away[|away| - i])
  {
    NoArchives(s, m);
    ArchivesAreNewest(s, m, records, []);
    NoHistory(RotatedAway(s, m, records));
    NewestByName(Run(s, m, records).files, m, RotatedAway(s, m, records));
  }

  lemma NoArchives(s: Store, m: Mode)
    requires 0 in s.files && s.currentSize == Size(s.files[0])
    requires forall i | i in s.files :: i == 0
    ensures Sound(s, m, [])
  {
  }

  lemma NewestByName(files: map<nat, File>, m: Mode, history: seq<File>)
    requires !m.Never? && ArchivesAre(files, Kept(m), history)
    ensures forall i: nat | 1 <= i :: i in files <==> i <= m.keepFiles && i <= |history|
    ensures forall i: nat | 1 <= i && i in files :: files[i] == history[|history| - i]
  {
  }

  /** Where each file goes when the archives shift up, whatever gaps the directory has: below keep
      every file moves up by one; the archive at keep is overwritten by the one below, and stays
      if there is none; archives beyond keep stay; and no other file appears. */
  lemma WhereFilesGo(files: map<nat, File>, keep: nat, i: nat)
    requires keep >= 1
    ensures var shifted := Shifted(files, keep);
            && (i in files && i < keep ==> i + 1 in shifted && shifted[i + 1] == files[i])
            && (keep in files && keep - 1 !in files ==> keep in shifted && shifted[keep] == files[keep])
            && (i in files && i > keep ==> i in shifted && shifted[i] == files[i])
            && (i in shifted ==> (1 <= i <= keep && i - 1 in files) || (i >= keep && i in files))
  {
    SourceIsShifted(files, keep, i);
    SourceIsShifted(files, keep, i + 1);
    SourceIsShifted(files, keep, keep);
  }
}
