/** The brain's memory file: records appended line by line, compacted to the newest, and read newest first. */
module MemoryLog {
  import opened PyLists

  datatype Rec = Rec(ts: real, task: string, result: string, improved: Option<string>, tags: seq<string>)

  /** A line of the file; anything but a record can only have been put there by somebody else. */
  datatype Line = Blank | Junk | Entry(rec: Rec)

  /** The record kept of a result, with its parts cut to size. */
  function RecordOf(ts: real, task: string, result: string, improved: Option<string>, tags: seq<string>): Rec {
    var kept := if improved.Some? && improved.value != "" then Some(Cut(improved.value, 500)) else None;
    Rec(ts, Cut(task, 500), Cut(result, 1000), kept, Cut(tags, 10))
  }

  /** The text kept is the beginning of the given one, as much of it as fits. */
  predicate BeginningOf<T(==)>(kept: seq<T>, given: seq<T>, limit: nat) {
    kept <= given && |kept| == Min(|given|, limit)
  }

  /** Every part of a record is the beginning of the part it is about; an empty improvement counts as none. */
  lemma RecordIsAbout(ts: real, task: string, result: string, improved: Option<string>, tags: seq<string>)
    ensures var r := RecordOf(ts, task, result, improved, tags);
      && r.ts == ts && BeginningOf(r.task, task, 500) && BeginningOf(r.result, result, 1000)
      && BeginningOf(r.tags, tags, 10)
      && (improved == None || improved == Some("") ==> r.improved == None)
      && (improved.Some? && improved.value != "" ==>
            r.improved.Some? && BeginningOf(r.improved.value, improved.value, 500))
  {
  }

  /** How the file system treats one call of `store`. */
  datatype Luck = Luck(appends: bool, compacts: bool)

  /** One call of `store`: what it appends, and whether the two file operations work. */
  datatype Write = Write(rec: Rec, luck: Luck)

  function Compacted(lines: seq<Line>, max: int): seq<Line> {
    if |lines| <= max then lines else Tail(lines, max)
  }

  function AfterWrite(lines: seq<Line>, max: int, w: Write): seq<Line> {
    if !w.luck.appends then lines
    else if w.luck.compacts then Compacted(lines + [Entry(w.rec)], max)
    else lines + [Entry(w.rec)]
  }

  function AfterWrites(lines: seq<Line>, max: int, ws: seq<Write>, n: nat): seq<Line>
    requires n <= |ws|
  {
    if n == 0 then lines else AfterWrite(AfterWrites(lines, max, ws, n - 1), max, ws[n - 1])
  }

  /** Everything that was in the file once or was appended to it, as if nothing were ever dropped. */
  function History(lines: seq<Line>, ws: seq<Write>, n: nat): seq<Line>
    requires n <= |ws|
  {
    if n == 0 then lines
    else if ws[n - 1].luck.appends then History(lines, ws, n - 1) + [Entry(ws[n - 1].rec)]
    else History(lines, ws, n - 1)
  }

  /** A file holds the end of a history, at least its last `max` lines. */
  ghost predicate HoldsTheEnd(file: seq<Line>, history: seq<Line>, max: nat) {
    |file| <= |history| && file == history[|history| - |file|..] && (|file| >= max || file == history)
  }

  /** Compacting a file that holds the end of a history leaves exactly the last `max` lines of that history. */
  lemma CompactingTheEnd(file: seq<Line>, history: seq<Line>, max: nat)
    requires HoldsTheEnd(file, history, max) && max >= 1
    ensures Compacted(file, max) == Compacted(history, max) && HoldsTheEnd(Compacted(file, max), history, max)
  {
    var n, m := |history|, |file|;
    if m > max {
      assert file[m - max..] == history[n - max..];
    } else if file != history {
      assert m == max && Compacted(history, max) == file;
    }
  }

  lemma CompactedLength(lines: seq<Line>, max: nat)
    requires max >= 1
    ensures |Compacted(lines, max)| == Min(|lines|, max)
  {
  }

  lemma AppendingToTheEnd(file: seq<Line>, history: seq<Line>, max: nat, line: Line)
    requires HoldsTheEnd(file, history, max)
    ensures HoldsTheEnd(file + [line], history + [line], max)
  {
  }

  /**
   Whatever file operations fail, the file always holds the end
   of its history and never loses one of the last `max` lines.
   */
  lemma {:induction false} NothingRecentIsLost(lines: seq<Line>, max: nat, ws: seq<Write>, n: nat)
    requires n <= |ws| && max >= 1
    ensures HoldsTheEnd(AfterWrites(lines, max, ws, n), History(lines, ws, n), max)
  {
    if n > 0 {
      NothingRecentIsLost(lines, max, ws, n - 1);
      if ws[n - 1].luck.appends {
        var file, history := AfterWrites(lines, max, ws, n - 1), History(lines, ws, n - 1);
        AppendingToTheEnd(file, history, max, Entry(ws[n - 1].rec));
        CompactingTheEnd(file + [Entry(ws[n - 1].rec)], history + [Entry(ws[n - 1].rec)], max);
      }
    }
  }

  /**
   One call whose file operations work repairs every earlier failure:
   the file is then exactly the last `max` lines of the history.
   */
  lemma FileIsLastRecords(lines: seq<Line>, max: nat, ws: seq<Write>, n: nat)
    requires 0 < n <= |ws| && max >= 1 && ws[n - 1].luck == Luck(true, true)
    ensures AfterWrites(lines, max, ws, n) == Compacted(History(lines, ws, n), max)
    ensures HoldsTheEnd(AfterWrites(lines, max, ws, n), History(lines, ws, n), max)
    ensures |AfterWrites(lines, max, ws, n)| == Min(|History(lines, ws, n)|, max)
  {
    NothingRecentIsLost(lines, max, ws, n - 1);
    var file, history := AfterWrites(lines, max, ws, n - 1), History(lines, ws, n - 1);
    AppendingToTheEnd(file, history, max, Entry(ws[n - 1].rec));
    CompactingTheEnd(file + [Entry(ws[n - 1].rec)], history + [Entry(ws[n - 1].rec)], max);
    CompactedLength(history + [Entry(ws[n - 1].rec)], max);
  }

  /** A record that could be appended is the last line of the file, and one that could not leaves the file as it was. */
  lemma NewestIsLast(lines: seq<Line>, max: nat, ws: seq<Write>, n: nat)
    requires n < |ws|
    ensures var before, after := AfterWrites(lines, max, ws, n), AfterWrites(lines, max, ws, n + 1);
      if ws[n].luck.appends then after != [] && after[|after| - 1] == Entry(ws[n].rec) else after == before
  {
  }

  /** With a maximum of zero the slice keeps every line, so the file is never compacted. */
  lemma {:induction false} ZeroMaximumKeepsAll(lines: seq<Line>, ws: seq<Write>, n: nat)
    requires n <= |ws|
    ensures AfterWrites(lines, 0, ws, n) == History(lines, ws, n)
  {
    if n > 0 {
      ZeroMaximumKeepsAll(lines, ws, n - 1);
    }
  }

  // ----- reading

  /** The records of the file that satisfy `wanted`, newest first. */
  function Newest(lines: seq<Line>, wanted: Rec -> bool, n: nat): (found: seq<Rec>)
    requires n <= |lines|
    ensures |found| <= n
  {
    if n == 0 then []
    else if lines[n - 1].Entry? && wanted(lines[n - 1].rec) then [lines[n - 1].rec] + Newest(lines, wanted, n - 1)
    else Newest(lines, wanted, n - 1)
  }

  function Since(since: Option<real>): Rec -> bool {
    (rec: Rec) => since == None || rec.ts >= since.value
  }

  function AtLeastOne(k: int): nat {
    if k < 1 then 1 else k
  }

  /** Cutting a list is affected by what is appended exactly if the list ends before the cut. */
  lemma CutAppend<T>(whole: seq<T>, s: seq<T>, more: seq<T>, n: nat)
    requires whole == s + more
    ensures Cut(whole, n) == Cut(s, n) <==> |s| >= n || more == []
  {
    if more == [] {
      assert whole == s;
    } else if |s| >= n {
      assert whole[..n] == s[..n];
    } else {
      assert |Cut(whole, n)| > |s|;
    }
  }

  lemma TakeNewest(lines: seq<Line>, since: Option<real>, i: nat, records: seq<Rec>, all: seq<Rec>)
    requires i < |lines| && lines[i].Entry? && Since(since)(lines[i].rec)
    requires all == records + Newest(lines, Since(since), i + 1)
    ensures all == records + [lines[i].rec] + Newest(lines, Since(since), i)
  {
    assert Newest(lines, Since(since), i + 1) == [lines[i].rec] + Newest(lines, Since(since), i);
  }

  /** The newest records of two files in a row are those of the second, then those of the first. */
  lemma {:induction false} NewestOfConcat(a: seq<Line>, b: seq<Line>, wanted: Rec -> bool, n: nat)
    requires n <= |b|
    ensures Newest(a + b, wanted, |a| + n) == Newest(b, wanted, n) + Newest(a, wanted, |a|)
  {
    if n > 0 {
      NewestOfConcat(a, b, wanted, n - 1);
    } else {
      NewestOfPrefix(a, b, wanted, |a|);
    }
  }

  lemma {:induction false} NewestOfPrefix(a: seq<Line>, b: seq<Line>, wanted: Rec -> bool, n: nat)
    requires n <= |a|
    ensures Newest(a + b, wanted, n) == Newest(a, wanted, n)
  {
    if n > 0 {
      NewestOfPrefix(a, b, wanted, n - 1);
    }
  }

  ghost predicate AllEntries(lines: seq<Line>) {
    forall k :: 0 <= k < |lines| ==> lines[k].Entry?
  }

  predicate Hit(line: Line, wanted: Rec -> bool) {
    line.Entry? && wanted(line.rec)
  }

  lemma {:induction false} NewestOfAll(lines: seq<Line>, wanted: Rec -> bool, n: nat)
    requires n <= |lines|
    ensures |Newest(lines, wanted, n)| == n <==> forall k :: 0 <= k < n ==> Hit(lines[k], wanted)
  {
    if n > 0 {
      NewestOfAll(lines, wanted, n - 1);
    }
  }

  lemma {:induction false} NewestOfNone(lines: seq<Line>, wanted: Rec -> bool, n: nat)
    requires n <= |lines|
    ensures Newest(lines, wanted, n) == [] <==> forall k :: 0 <= k < n ==> !Hit(lines[k], wanted)
  {
    if n > 0 {
      NewestOfNone(lines, wanted, n - 1);
    }
  }

  /** Whoever wants more finds more. */
  lemma {:induction false} NewestGrows(lines: seq<Line>, fewer: Rec -> bool, more: Rec -> bool, n: nat)
    requires n <= |lines| && forall k :: 0 <= k < n && Hit(lines[k], fewer) ==> Hit(lines[k], more)
    ensures |Newest(lines, fewer, n)| <= |Newest(lines, more, n)|
  {
    if n > 0 {
      NewestGrows(lines, fewer, more, n - 1);
    }
  }

  // ----- what readers find

  /** The lines a reader is after: records, and none older than the time set, if one is. */
  ghost function Recent(since: Option<real>): Line -> bool {
    (line: Line) => line.Entry? && (since.Some? ==> line.rec.ts >= since.value)
  }

  /** The records of the lines, from the last one backwards. */
  function Backwards(lines: seq<Line>): seq<Rec> {
    if lines == [] then []
    else
      var last := lines[|lines| - 1];
      (if last.Entry? then [last.rec] else []) + Backwards(lines[..|lines| - 1])
  }

  lemma {:induction false} BackwardsLength(lines: seq<Line>)
    requires AllEntries(lines)
    ensures |Backwards(lines)| == |lines|
  {
    if lines != [] {
      BackwardsLength(lines[..|lines| - 1]);
    }
  }

  lemma {:induction false} BackwardsAt(lines: seq<Line>, k: nat)
    requires AllEntries(lines) && k < |lines| == |Backwards(lines)|
    ensures Entry(Backwards(lines)[k]) == lines[|lines| - 1 - k]
  {
    if k > 0 {
      BackwardsLength(lines[..|lines| - 1]);
      BackwardsAt(lines[..|lines| - 1], k - 1);
    }
  }

  lemma BackwardsAppend(lines: seq<Line>, line: Line)
    ensures Backwards(lines + [line]) == (if line.Entry? then [line.rec] else []) + Backwards(lines)
  {
    assert (lines + [line])[..|lines|] == lines;
  }

  /** The newest records wanted are those of the lines to be kept, from the last one backwards. */
  lemma {:induction false} NewestAreLast(lines: seq<Line>, wanted: Rec -> bool, keep: Line -> bool, n: nat)
    requires n <= |lines|
    requires forall k {:trigger lines[k]} :: 0 <= k < n ==> (keep(lines[k]) <==> Hit(lines[k], wanted))
    ensures Newest(lines, wanted, n) == Backwards(Filter(lines[..n], keep))
  {
    if n > 0 {
      var last, hits := lines[n - 1], Filter(lines[..n - 1], keep);
      NewestAreLast(lines, wanted, keep, n - 1);
      assert lines[..n][..n - 1] == lines[..n - 1];
      FilterLast(lines[..n], keep);
      if keep(last) {
        BackwardsAppend(hits, last);
        assert Newest(lines, wanted, n) == [last.rec] + Newest(lines, wanted, n - 1);
      } else {
        assert Newest(lines, wanted, n) == Newest(lines, wanted, n - 1);
      }
    }
  }

  lemma {:induction false} HitsAreEntries(lines: seq<Line>, since: Option<real>)
    ensures AllEntries(Filter(lines, Recent(since)))
  {
    if lines != [] {
      HitsAreEntries(lines[1..], since);
    }
  }

  /** What `load_all` returns: the last of the lines the reader is after, newest first, as many as the limit allows. */
  lemma LoadedAreNewest(lines: seq<Line>, since: Option<real>, limit: int)
    ensures var found := Cut(Newest(lines, Since(since), |lines|), AtLeastOne(limit));
      var hits := Filter(lines, Recent(since));
      && |found| == Min(|hits|, if limit < 1 then 1 else limit)
      && forall k :: 0 <= k < |found| ==> Entry(found[k]) == hits[|hits| - 1 - k]
  {
    var hits := Filter(lines, Recent(since));
    NewestAreLast(lines, Since(since), Recent(since), |lines|);
    HitsAreEntries(lines, since);
    assert lines[..|lines|] == lines;
    BackwardsLength(hits);
    forall k | 0 <= k < |hits| ensures Entry(Backwards(hits)[k]) == hits[|hits| - 1 - k] {
      BackwardsAt(hits, k);
    }
  }

  // ----- what a reader notices of compaction

  /** A reader of the newest `limit` records finds the same in both. */
  ghost predicate ReadsAlike(file: seq<Line>, whole: seq<Line>, limit: nat, since: Option<real>) {
    Cut(Newest(file, Since(since), |file|), limit) == Cut(Newest(whole, Since(since), |whole|), limit)
  }

  /** Reading on beyond the file shows more exactly when the file runs out before the limit and there is more. */
  lemma ReadsAlikeIff(dropped: seq<Line>, file: seq<Line>, limit: nat, since: Option<real>)
    ensures ReadsAlike(file, dropped + file, limit, since) <==>
      |Newest(file, Since(since), |file|)| >= limit || Newest(dropped, Since(since), |dropped|) == []
  {
    var found, more := Newest(file, Since(since), |file|), Newest(dropped, Since(since), |dropped|);
    NewestOfConcat(dropped, file, Since(since), |file|);
    CutAppend(Newest(dropped + file, Since(since), |dropped + file|), found, more, limit);
  }

  /** The lines of the history that are no longer in the file. */
  function Dropped(file: seq<Line>, history: seq<Line>): seq<Line>
    requires |file| <= |history|
  {
    history[..|history| - |file|]
  }

  /**
   Whatever file operations failed, compaction is invisible to a reader if and only if
   the file still has enough for it, or nothing that was dropped is recent enough for it.
   */
  lemma ReaderIsUnaffectedIff(lines: seq<Line>, max: nat, ws: seq<Write>, n: nat, limit: nat, since: Option<real>)
    requires n <= |ws| && max >= 1
    ensures var file, history := AfterWrites(lines, max, ws, n), History(lines, ws, n);
      |file| <= |history| && var dropped := Dropped(file, history);
      ReadsAlike(file, history, limit, since) <==>
        |Newest(file, Since(since), |file|)| >= limit || Newest(dropped, Since(since), |dropped|) == []
  {
    var file, history := AfterWrites(lines, max, ws, n), History(lines, ws, n);
    NothingRecentIsLost(lines, max, ws, n);
    var dropped := Dropped(file, history);
    assert history == dropped + file;
    ReadsAlikeIff(dropped, file, limit, since);
  }

  /** No reader of at most `max` records finds a difference. */
  ghost predicate Invisible(file: seq<Line>, history: seq<Line>, max: nat) {
    forall limit: nat, since {:trigger ReadsAlike(file, history, limit, since)} ::
      limit <= max ==> ReadsAlike(file, history, limit, since)
  }

  /** The file has at least `max` records that are not older than the record of this line. */
  ghost predicate Outdated(line: Line, file: seq<Line>, max: nat) {
    line.Entry? ==> |Newest(file, Since(Some(line.rec.ts)), |file|)| >= max
  }

  ghost predicate AllOutdated(dropped: seq<Line>, file: seq<Line>, max: nat) {
    forall i {:trigger Outdated(dropped[i], file, max)} :: 0 <= i < |dropped| ==> Outdated(dropped[i], file, max)
  }

  /** A reader who would find an outdated line finds `max` records without it. */
  lemma OutdatedIsNotMissed(line: Line, file: seq<Line>, max: nat, since: Option<real>)
    requires Outdated(line, file, max) && Hit(line, Since(since))
    ensures |Newest(file, Since(since), |file|)| >= max
  {
    NewestGrows(file, Since(Some(line.rec.ts)), Since(since), |file|);
  }

  /** A reader who asks for what is not older than a given line finds that line. */
  lemma ReaderOfALine(dropped: seq<Line>, i: nat)
    requires i < |dropped| && dropped[i].Entry?
    ensures Newest(dropped, Since(Some(dropped[i].rec.ts)), |dropped|) != []
  {
    NewestOfNone(dropped, Since(Some(dropped[i].rec.ts)), |dropped|);
    assert Hit(dropped[i], Since(Some(dropped[i].rec.ts)));
  }

  /**
   In every state, whatever file operations failed and whatever else is in the file: compaction is invisible to all
   readers of at most `max` records if and only if every dropped record is outdated by `max` records of the file.
   */
  lemma InvisibleIffAllOutdated(lines: seq<Line>, max: nat, ws: seq<Write>, n: nat)
    requires n <= |ws| && max >= 1
    ensures var file, history := AfterWrites(lines, max, ws, n), History(lines, ws, n);
      |file| <= |history| && (Invisible(file, history, max) <==> AllOutdated(Dropped(file, history), file, max))
  {
    var file, history := AfterWrites(lines, max, ws, n), History(lines, ws, n);
    NothingRecentIsLost(lines, max, ws, n);
    var dropped := Dropped(file, history);
    if AllOutdated(dropped, file, max) {
      forall limit: nat, since | limit <= max ensures ReadsAlike(file, history, limit, since) {
        ReaderIsUnaffectedIff(lines, max, ws, n, limit, since);
        NewestOfNone(dropped, Since(since), |dropped|);
        if i :| 0 <= i < |dropped| && Hit(dropped[i], Since(since)) {
          assert Outdated(dropped[i], file, max);
          OutdatedIsNotMissed(dropped[i], file, max, since);
        }
      }
    }
    if Invisible(file, history, max) {
      forall i | 0 <= i < |dropped| ensures Outdated(dropped[i], file, max) {
        if dropped[i].Entry? {
          var since := Some(dropped[i].rec.ts);
          assert ReadsAlike(file, history, max, since);
          ReaderIsUnaffectedIff(lines, max, ws, n, max, since);
          ReaderOfALine(dropped, i);
        }
      }
    }
  }

  /** No dropped record is newer than a kept one. */
  ghost predicate NoneNewer(dropped: seq<Line>, file: seq<Line>)
    requires AllEntries(dropped) && AllEntries(file)
  {
    forall i, j :: 0 <= i < |dropped| && 0 <= j < |file| ==> dropped[i].rec.ts <= file[j].rec.ts
  }

  /** In a full file every record counts. */
  lemma OutdatedByAll(dropped: seq<Line>, file: seq<Line>)
    requires AllEntries(dropped) && AllEntries(file)
    ensures AllOutdated(dropped, file, |file|) <==> NoneNewer(dropped, file)
  {
    forall i | 0 <= i < |dropped|
      ensures Outdated(dropped[i], file, |file|) <==>
        forall j :: 0 <= j < |file| ==> dropped[i].rec.ts <= file[j].rec.ts
    {
      NewestOfAll(file, Since(Some(dropped[i].rec.ts)), |file|);
      assert forall j :: 0 <= j < |file| ==>
        (Hit(file[j], Since(Some(dropped[i].rec.ts))) <==> dropped[i].rec.ts <= file[j].rec.ts);
    }
    if AllOutdated(dropped, file, |file|) {
      assert forall i :: 0 <= i < |dropped| ==> Outdated(dropped[i], file, |file|);
    }
  }

  lemma {:induction false} HistoryOfEntries(lines: seq<Line>, ws: seq<Write>, n: nat)
    requires n <= |ws| && AllEntries(lines)
    ensures AllEntries(History(lines, ws, n))
  {
    if n > 0 {
      HistoryOfEntries(lines, ws, n - 1);
    }
  }

  /**
   Right after a call whose file operations worked, for a file of records from the start: compaction is invisible
   to all readers of at most `max` records if and only if no dropped record is newer than a kept one.
   */
  lemma InvisibleIffNoneNewer(lines: seq<Line>, max: nat, ws: seq<Write>, n: nat)
    requires 0 < n <= |ws| && max >= 1 && AllEntries(lines) && ws[n - 1].luck == Luck(true, true)
    ensures var file, history := AfterWrites(lines, max, ws, n), History(lines, ws, n);
      |file| <= |history| && AllEntries(file) && AllEntries(history)
      && (Invisible(file, history, max) <==> NoneNewer(Dropped(file, history), file))
  {
    var file, history := AfterWrites(lines, max, ws, n), History(lines, ws, n);
    FileIsLastRecords(lines, max, ws, n);
    HistoryOfEntries(lines, ws, n);
    InvisibleIffAllOutdated(lines, max, ws, n);
    if |history| > max {
      OutdatedByAll(Dropped(file, history), file);
    }
  }

  /** The clock did not run backwards between the records. */
  ghost predicate InTimeOrder(lines: seq<Line>)
    requires AllEntries(lines)
  {
    forall i, j :: 0 <= i <= j < |lines| ==> lines[i].rec.ts <= lines[j].rec.ts
  }

  /** The end of an ordered history is newer than what was dropped from it. */
  lemma OrderedIsOutdated(dropped: seq<Line>, file: seq<Line>, history: seq<Line>, max: nat)
    requires history == dropped + file && AllEntries(history) && InTimeOrder(history)
    requires |file| >= max || dropped == []
    ensures AllOutdated(dropped, file, max)
  {
    forall i | 0 <= i < |dropped| ensures Outdated(dropped[i], file, max) {
      assert dropped[i] == history[i];
      forall j | 0 <= j < |file| ensures Hit(file[j], Since(Some(dropped[i].rec.ts))) {
        assert file[j] == history[|dropped| + j];
      }
      NewestOfAll(file, Since(Some(dropped[i].rec.ts)), |file|);
    }
  }

  /**
   So a reader of at most `max` records of a file of records from the start never notices
   compaction if the reader sets no time, or if the clock never ran backwards.
   */
  lemma CompactionIsInvisible(lines: seq<Line>, max: nat, ws: seq<Write>, n: nat, limit: nat, since: Option<real>)
    requires n <= |ws| && 1 <= limit <= max && AllEntries(lines)
    requires since == None || (AllEntries(History(lines, ws, n)) && InTimeOrder(History(lines, ws, n)))
    ensures ReadsAlike(AfterWrites(lines, max, ws, n), History(lines, ws, n), limit, since)
  {
    var file, history := AfterWrites(lines, max, ws, n), History(lines, ws, n);
    NothingRecentIsLost(lines, max, ws, n);
    HistoryOfEntries(lines, ws, n);
    if since == None {
      ReaderIsUnaffectedIff(lines, max, ws, n, limit, since);
      NewestOfAll(file, Since(since), |file|);
    } else {
      OrderedIsOutdated(Dropped(file, history), file, history, max);
      InvisibleIffAllOutdated(lines, max, ws, n);
    }
  }

  /** Two calls with a maximum of one, the clock running backwards between them: the newer record is gone. */
  lemma BackwardClockHides()
    ensures var a, b := Rec(10.0, "", "", None, []), Rec(5.0, "", "", None, []);
      var ws := [Write(a, Luck(true, true)), Write(b, Luck(true, true))];
      && AfterWrites([], 1, ws, 2) == [Entry(b)] && History([], ws, 2) == [Entry(a), Entry(b)]
      && Newest([Entry(b)], Since(Some(7.0)), 1) == [] && Newest([Entry(a), Entry(b)], Since(Some(7.0)), 2) == [a]
  {
    var a, b := Rec(10.0, "", "", None, []), Rec(5.0, "", "", None, []);
    var ws := [Write(a, Luck(true, true)), Write(b, Luck(true, true))];
    assert AfterWrites([], 1, ws, 1) == [Entry(a)] && History([], ws, 1) == [Entry(a)];
    assert [Entry(a)] + [Entry(b)] == [Entry(a), Entry(b)] && Compacted([Entry(a), Entry(b)], 1) == [Entry(b)];
    assert Newest([Entry(a), Entry(b)], Since(Some(7.0)), 1) == [a] + Newest([Entry(a), Entry(b)], Since(Some(7.0)), 0);
  }

  // ----- searching

  /** The cut-off before which a record is stale; zero means that none is. */
  function Cutoff(now: real, ttl: real): real {
    if ttl > 0.0 then now - ttl else 0.0
  }

  /** A record that is not stale and mentions one of the keywords. */
  predicate Relevant(keywords: seq<string>, mentions: (string, Rec) -> bool, cutoff: real, rec: Rec) {
    (cutoff == 0.0 || rec.ts >= cutoff) && exists i :: 0 <= i < |keywords| && mentions(keywords[i], rec)
  }

  function RelevantIn(keywords: seq<string>, mentions: (string, Rec) -> bool, cutoff: real, found: seq<Rec>,
                      n: nat): seq<Rec>
    requires n <= |found|
  {
    if n == 0 then []
    else RelevantIn(keywords, mentions, cutoff, found, n - 1)
         + (if Relevant(keywords, mentions, cutoff, found[n - 1]) then [found[n - 1]] else [])
  }

  lemma {:induction false} RelevantGrows(keywords: seq<string>, mentions: (string, Rec) -> bool, cutoff: real,
                                         found: seq<Rec>, m: nat, n: nat)
    requires m <= n <= |found|
    ensures RelevantIn(keywords, mentions, cutoff, found, m) <= RelevantIn(keywords, mentions, cutoff, found, n)
  {
    if m < n {
      RelevantGrows(keywords, mentions, cutoff, found, m, n - 1);
    }
  }

  /** The records that mention a keyword and are not older than the time to live, if there is one. */
  ghost function Matching(keywords: seq<string>, mentions: (string, Rec) -> bool, now: real, ttl: real): Rec -> bool {
    (rec: Rec) => (exists i :: 0 <= i < |keywords| && mentions(keywords[i], rec))
                  && (ttl > 0.0 && now != ttl ==> rec.ts >= now - ttl)
  }

  lemma {:induction false} RelevantIsFilter(keywords: seq<string>, mentions: (string, Rec) -> bool, cutoff: real,
                                            keep: Rec -> bool, found: seq<Rec>, n: nat)
    requires n <= |found|
    requires forall k {:trigger found[k]} :: 0 <= k < n ==>
      (keep(found[k]) <==> Relevant(keywords, mentions, cutoff, found[k]))
    ensures RelevantIn(keywords, mentions, cutoff, found, n) == Filter(found[..n], keep)
  {
    if n > 0 {
      RelevantIsFilter(keywords, mentions, cutoff, keep, found, n - 1);
      assert found[..n][..n - 1] == found[..n - 1];
      FilterLast(found[..n], keep);
      assert keep(found[n - 1]) <==> Relevant(keywords, mentions, cutoff, found[n - 1]);
    }
  }

  /** What `search` finds among the records it looks at are those that match, in their order. */
  lemma RelevantMatch(keywords: seq<string>, mentions: (string, Rec) -> bool, now: real, ttl: real, found: seq<Rec>)
    ensures RelevantIn(keywords, mentions, Cutoff(now, ttl), found, |found|) ==
      Filter(found, Matching(keywords, mentions, now, ttl))
  {
    RelevantIsFilter(keywords, mentions, Cutoff(now, ttl), Matching(keywords, mentions, now, ttl), found, |found|);
    assert found[..|found|] == found;
  }

  /** Once as many are found as are asked for, looking on changes nothing. */
  lemma FoundEnough(keywords: seq<string>, mentions: (string, Rec) -> bool, cutoff: real, found: seq<Rec>, i: nat,
                    matches: seq<Rec>)
    requires i <= |found| && matches == RelevantIn(keywords, mentions, cutoff, found, i)
    ensures Cut(RelevantIn(keywords, mentions, cutoff, found, |found|), |matches|) == matches
  {
    RelevantGrows(keywords, mentions, cutoff, found, i, |found|);
  }

  class Memory {
    const max: int
    var lines: seq<Line>

    constructor (max: int, lines: seq<Line>)
      ensures this.max == max && this.lines == lines
    {
      this.max, this.lines := max, lines;
    }

    method MaybeCompact(works: bool)
      modifies this
      ensures lines == if works then Compacted(old(lines), max) else old(lines)
    {
      if !works || |lines| <= max {
        return;
      }
      lines := Tail(lines, max);
    }

    method Store(ts: real, task: string, result: string, improved: Option<string>, tags: seq<string>, luck: Luck)
      modifies this
      ensures lines == AfterWrite(old(lines), max, Write(RecordOf(ts, task, result, improved, tags), luck))
    {
      var record := RecordOf(ts, task, result, improved, tags);
      if luck.appends {
        lines := lines + [Entry(record)];
        MaybeCompact(luck.compacts);
      }
    }

    /**
     The newest records that are recent enough, newest first; at least
     one is returned if there is any, even for a limit below one.
     */
    method LoadAll(limit: int, since: Option<real>) returns (records: seq<Rec>)
      ensures records == Cut(Newest(lines, Since(since), |lines|), AtLeastOne(limit))
    {
      records := [];
      ghost var all := Newest(lines, Since(since), |lines|);
      var i := |lines|;
      while i > 0
        invariant 0 <= i <= |lines| && |records| < AtLeastOne(limit)
        invariant all == records + Newest(lines, Since(since), i)
      {
        i := i - 1;
        if lines[i].Entry? && !(since.Some? && lines[i].rec.ts < since.value) {
          TakeNewest(lines, since, i, records, all);
          records := records + [lines[i].rec];
          if |records| >= limit {
            CutAppend(all, records, Newest(lines, Since(since), i), AtLeastOne(limit));
            return;
          }
        }
      }
    }

    method MentionsAny(keywords: seq<string>, mentions: (string, Rec) -> bool, rec: Rec) returns (any: bool)
      ensures any <==> exists i :: 0 <= i < |keywords| && mentions(keywords[i], rec)
    {
      for i := 0 to |keywords|
        invariant forall j :: 0 <= j < i ==> !mentions(keywords[j], rec)
      {
        if mentions(keywords[i], rec) {
          return true;
        }
      }
      return false;
    }

    /** The newest relevant records among the newest 200, newest first; without keywords simply the newest records. */
    method Search(keywords: seq<string>, mentions: (string, Rec) -> bool, topK: int, now: real, ttl: real)
      returns (matches: seq<Rec>)
      ensures var newest := Newest(lines, Since(None), |lines|);
        matches == if keywords == [] then Cut(newest, AtLeastOne(topK))
                   else Cut(RelevantIn(keywords, mentions, Cutoff(now, ttl), Cut(newest, 200), |Cut(newest, 200)|),
                            AtLeastOne(topK))
    {
      if keywords == [] {
        matches := LoadAll(topK, None);
        return;
      }
      var cutoff := if ttl > 0.0 then now - ttl else 0.0;
      matches := [];
      var loaded := LoadAll(200, None);
      for i := 0 to |loaded|
        invariant matches == RelevantIn(keywords, mentions, cutoff, loaded, i) && |matches| < AtLeastOne(topK)
      {
        if cutoff != 0.0 && loaded[i].ts < cutoff {
          continue;
        }
        var hit := MentionsAny(keywords, mentions, loaded[i]);
        if hit {
          matches := matches + [loaded[i]];
          if |matches| >= topK {
            FoundEnough(keywords, mentions, cutoff, loaded, i + 1, matches);
            return;
          }
        }
      }
    }
  }
}
