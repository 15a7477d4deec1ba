/**
 Publishing the brightness level: the clock writes a temporary file and renames it over the final one,
 system call by system call, while the telemetry service reads the final file at any moment.
*/
module Publish {
  import opened Basics
  import opened Wire
  import opened Telemetry

  /** Where publish_text is between two system calls; ok tells whether the write was complete. */
  datatype Publisher =
    | Idle
    | Opened(level: nat, inode: nat)
    | Written(level: nat, inode: nat, ok: bool)
    | Closed(level: nat, ok: bool)

  /**
   read_brightness_grayscale between two system calls: the file it has open, the bytes its reads have returned so
   far, and what `last` was when it opened the file.
  */
  datatype Reader =
    | Away
    | Reading(inode: nat, got: string, lastAtOpen: int)
    | Done(result: Option<int>, lastAtOpen: int)

  /**
   The directory names two files, the inodes hold their contents. levels collects what the
   ticks asked to publish.
  */
  datatype System = System(files: map<nat, string>, tmp: Option<nat>, final: Option<nat>, next: nat,
                           publisher: Publisher, last: int, levels: set<nat>, reader: Reader)

  /**
   One system call by either side. written counts the bytes a write got out, which is short of the text
   (or 0) when it fails; count is how much one read asks for.
  */
  datatype Action =
    | TickPublishes(level: nat, openOk: bool)
    | Write(written: nat)
    | Close
    | Rename(renameOk: bool)
    | ReaderOpens
    | ReaderReads(count: nat)
    | ReaderFails

  /** publish_brightness up to the open of the temporary file, which creates or truncates it. */
  function Begin(s: System, level: nat, openOk: bool): System {
    var asked := s.(levels := s.levels + {level});
    if level == s.last || |LevelText(level)| >= 16 || !openOk then
      asked
    else match s.tmp
      case Some(inode) =>
        asked.(files := s.files[inode := ""], publisher := Opened(level, inode))
      case None =>
        asked.(files := s.files[s.next := ""], tmp := Some(s.next), next := s.next + 1,
               publisher := Opened(level, s.next))
  }

  /** A write overwrites from the start of the file; what lies beyond it stays. */
  function AfterWrite(s: System, written: nat): System
    requires s.publisher.Opened? && s.publisher.inode in s.files
  {
    var text, before := LevelText(s.publisher.level), s.files[s.publisher.inode];
    var out := if written < |text| then text[..written] else text;
    var contents := if |out| < |before| then out + before[|out|..] else out;
    s.(files := s.files[s.publisher.inode := contents],
       publisher := Written(s.publisher.level, s.publisher.inode, written >= |text|))
  }

  /** `ok && rename(tmp, final) == 0`, and the update of last that depends on it. */
  function AfterRename(s: System, renameOk: bool): System
    requires s.publisher.Closed?
  {
    if s.publisher.ok && renameOk then
      s.(final := s.tmp, tmp := None, last := s.publisher.level, publisher := Idle)
    else
      s.(publisher := Idle)
  }

  /**
   One read of up to count bytes, from where the last one ended, of what the inode holds by now. At end of file the
   bytes that came are parsed.
  */
  function AfterRead(s: System, count: nat): System
    requires s.reader.Reading? && s.reader.inode in s.files
  {
    var text, got := s.files[s.reader.inode], s.reader.got;
    if count == 0 then
      s
    else if |text| <= |got| then
      s.(reader := Done(ReadLevel(Some(got)), s.reader.lastAtOpen))
    else
      var end := if |got| + count < |text| then |got| + count else |text|;
      s.(reader := s.reader.(got := got + text[|got|..end]))
  }

  /** An action that its side is not ready for leaves the system alone. */
  function Do(s: System, a: Action): System {
    match a
    case TickPublishes(level, openOk) => if s.publisher.Idle? then Begin(s, level, openOk) else s
    case Write(written) =>
      if s.publisher.Opened? && s.publisher.inode in s.files then AfterWrite(s, written) else s
    case Close =>
      if s.publisher.Written? then s.(publisher := Closed(s.publisher.level, s.publisher.ok)) else s
    case Rename(renameOk) => if s.publisher.Closed? then AfterRename(s, renameOk) else s
    case ReaderOpens =>
      (match s.final
       case None => s.(reader := Done(None, s.last))
       case Some(inode) => s.(reader := Reading(inode, "", s.last)))
    case ReaderReads(count) =>
      if s.reader.Reading? && s.reader.inode in s.files then AfterRead(s, count) else s
    case ReaderFails =>
      if s.reader.Reading? then s.(reader := Done(None, s.reader.lastAtOpen)) else s
  }

  function Run(s: System, actions: seq<Action>): System {
    if actions == [] then s else Do(Run(s, actions[..|actions| - 1]), actions[|actions| - 1])
  }

  /**
   At start-up the final file is absent or holds the level of an earlier run of the clock, and a
   temporary file with anything in it may be left over.
  */
  predicate Initial(s: System) {
    && s.publisher == Idle && s.last == -1 && s.reader == Away
    && (s.final.Some? ==> s.final.value in s.files && s.final.value < s.next
                          && exists level :: level in s.levels && s.files[s.final.value] == LevelText(level))
    && (s.tmp.Some? ==> s.tmp.value in s.files && s.tmp.value < s.next && s.tmp != s.final)
  }

  // ------------------------------------------------------------ invariant

  /** The inode holds the full text of some level a tick has asked for. */
  predicate Whole(s: System, inode: nat) {
    inode in s.files && exists level :: level in s.levels && s.files[inode] == LevelText(level)
  }

  /** The publisher only ever writes to the temporary file's inode. */
  predicate PublisherOk(s: System) {
    match s.publisher
    case Idle => true
    case Opened(level, inode) =>
      s.tmp == Some(inode) && level in s.levels && inode in s.files && s.files[inode] == ""
    case Written(level, inode, ok) =>
      s.tmp == Some(inode) && level in s.levels && (ok ==> inode in s.files && s.files[inode] == LevelText(level))
    case Closed(level, ok) =>
      s.tmp.Some? && level in s.levels
      && (ok ==> s.tmp.value in s.files && s.files[s.tmp.value] == LevelText(level))
  }

  /**
   What an open reader is looking at is complete, out of the publisher's reach, and was `last`; and the bytes it has
   are the beginning of it, however many reads they came in.
  */
  predicate ReaderOk(s: System) {
    match s.reader
    case Away => true
    case Reading(inode, got, lastAtOpen) =>
      && Whole(s, inode) && inode < s.next && s.tmp != Some(inode)
      && got <= s.files[inode]
      && (lastAtOpen >= 0 ==> s.files[inode] == LevelText(lastAtOpen))
    case Done(result, lastAtOpen) =>
      result == None
      || (result.value >= 0 && result.value in s.levels && (lastAtOpen >= 0 ==> result.value == lastAtOpen))
  }

  predicate Consistent(s: System) {
    && (s.final.Some? ==> Whole(s, s.final.value) && s.final.value < s.next && s.tmp != s.final)
    && (s.tmp.Some? ==> s.tmp.value in s.files && s.tmp.value < s.next)
    && (s.last >= 0 ==> s.final.Some? && s.files[s.final.value] == LevelText(s.last))
    && PublisherOk(s)
    && ReaderOk(s)
  }

  lemma WholeKept(s: System, r: System, inode: nat)
    requires Whole(s, inode) && s.levels <= r.levels
    requires inode in r.files && r.files[inode] == s.files[inode]
    ensures Whole(r, inode)
  {
    var level :| level in s.levels && s.files[inode] == LevelText(level);
    assert level in r.levels;
  }

  lemma BeginConsistent(s: System, level: nat, openOk: bool)
    requires Consistent(s) && s.publisher.Idle?
    ensures Consistent(Begin(s, level, openOk))
  {
    var r := Begin(s, level, openOk);
    if s.final.Some? { WholeKept(s, r, s.final.value); }
    if s.reader.Reading? { WholeKept(s, r, s.reader.inode); }
  }

  lemma WriteConsistent(s: System, written: nat)
    requires Consistent(s) && s.publisher.Opened?
    ensures Consistent(AfterWrite(s, written))
  {
    var r := AfterWrite(s, written);
    if s.final.Some? { WholeKept(s, r, s.final.value); }
    if s.reader.Reading? { WholeKept(s, r, s.reader.inode); }
  }

  lemma RenameConsistent(s: System, renameOk: bool)
    requires Consistent(s) && s.publisher.Closed?
    ensures Consistent(AfterRename(s, renameOk))
  {
    var r := AfterRename(s, renameOk);
    ContentsKept(s, r);
    if r.final != s.final {
      assert r.files[r.final.value] == LevelText(s.publisher.level);
    }
  }

  /** Reading a complete file to its end gives the level it holds. */
  lemma WholeReads(s: System, inode: nat, lastAtOpen: int)
    requires Whole(s, inode) && (lastAtOpen >= 0 ==> s.files[inode] == LevelText(lastAtOpen))
    ensures var result := ReadLevel(Some(s.files[inode]));
            && result.Some? && result.value >= 0 && result.value in s.levels
            && (lastAtOpen >= 0 ==> result.value == lastAtOpen)
  {
    var level :| level in s.levels && s.files[inode] == LevelText(level);
    LevelRoundTrip(level);
    if lastAtOpen >= 0 { LevelRoundTrip(lastAtOpen); }
  }

  /** A read continues where the last one ended, so the bytes stay the beginning of the file. */
  lemma ReadContinues(text: string, got: string, end: nat)
    requires got <= text && |got| <= end <= |text|
    ensures got + text[|got|..end] <= text
  {
    assert got + text[|got|..end] == text[..end];
  }

  lemma ReadConsistent(s: System, count: nat)
    requires Consistent(s) && s.reader.Reading?
    ensures Consistent(AfterRead(s, count))
  {
    hide LevelText, ReadLevel;
    var r := AfterRead(s, count);
    var text, got := s.files[s.reader.inode], s.reader.got;
    ContentsKept(s, r);
    if |text| <= |got| {
      assert got == text;
      WholeReads(s, s.reader.inode, s.reader.lastAtOpen);
    } else {
      ReadContinues(text, got, if |got| + count < |text| then |got| + count else |text|);
    }
  }

  lemma DoConsistent(s: System, a: Action)
    requires Consistent(s)
    ensures Consistent(Do(s, a))
  {
    var r := Do(s, a);
    match a
    case TickPublishes(level, openOk) => if s.publisher.Idle? { BeginConsistent(s, level, openOk); }
    case Write(written) => if s.publisher.Opened? { WriteConsistent(s, written); }
    case Rename(renameOk) => if s.publisher.Closed? { RenameConsistent(s, renameOk); }
    case ReaderReads(count) => if s.reader.Reading? { ReadConsistent(s, count); }
    case Close => ContentsKept(s, r); ReaderKept(s, r);
    case ReaderOpens => ContentsKept(s, r);
    case ReaderFails => ContentsKept(s, r);
  }

  lemma ContentsKept(s: System, r: System)
    requires r.files == s.files && r.levels == s.levels
    ensures forall inode: nat :: Whole(s, inode) ==> Whole(r, inode)
  {
  }

  lemma ReaderKept(s: System, r: System)
    requires ReaderOk(s) && r.files == s.files && r.levels == s.levels && r.tmp == s.tmp && r.next == s.next
    requires r.reader == s.reader
    ensures ReaderOk(r)
  {
    ContentsKept(s, r);
  }

  lemma {:induction false} RunConsistent(s: System, actions: seq<Action>)
    requires Consistent(s)
    ensures Consistent(Run(s, actions))
  {
    if actions != [] {
      RunConsistent(s, actions[..|actions| - 1]);
      DoConsistent(Run(s, actions[..|actions| - 1]), actions[|actions| - 1]);
    }
  }

  /**
   For every interleaving of the two sides and every failure: the final file is absent or holds the full
   text of a level some tick had; after a successful publish that level is `last`; and the reader gets
   nothing or a level some tick had, namely the one that was `last` when it opened the file.
  */
  lemma PublishedAtomically(s: System, actions: seq<Action>)
    requires Initial(s)
    ensures var r := Run(s, actions);
            && (r.final.Some? ==> Whole(r, r.final.value))
            && (r.last >= 0 ==>
                  r.final.Some? && r.final.value in r.files && r.files[r.final.value] == LevelText(r.last))
            && (r.reader.Reading? ==> r.reader.inode in r.files && r.reader.got <= r.files[r.reader.inode])
            && (r.reader.Done? && r.reader.result.Some? ==>
                  && r.reader.result.value >= 0 && r.reader.result.value in r.levels
                  && (r.reader.lastAtOpen >= 0 ==> r.reader.result.value == r.reader.lastAtOpen))
  {
    RunConsistent(s, actions);
  }

  // ------------------------------------------------------------ when it is written

  /** A publish under way is of another level than the one published last. */
  predicate Fresh(s: System) {
    match s.publisher
    case Idle => true
    case Opened(level, _) => level != s.last
    case Written(level, _, _) => level != s.last
    case Closed(level, _) => level != s.last
  }

  lemma {:induction false} RunFresh(s: System, actions: seq<Action>)
    requires Fresh(s)
    ensures Fresh(Run(s, actions))
  {
    if actions != [] {
      RunFresh(s, actions[..|actions| - 1]);
    }
  }

  /** What anyone who opens the final file finds. */
  function FinalText(s: System): Option<string> {
    if s.final.Some? && s.final.value in s.files then Some(s.files[s.final.value]) else None
  }

  lemma LevelTextInjective(a: nat, b: nat)
    requires LevelText(a) == LevelText(b)
    ensures a == b
  {
    LevelRoundTrip(a);
    LevelRoundTrip(b);
  }

  /**
   In every run the final file is replaced exactly when `last` changes, and otherwise keeps its contents; so after
   the first publish each replacement changes what it says.
  */
  lemma ReplacedIffLevelChanges(start: System, actions: seq<Action>, a: Action)
    requires Initial(start)
    ensures var s, r := Run(start, actions), Do(Run(start, actions), a);
            && (r.final != s.final <==> r.last != s.last)
            && (r.final == s.final ==> FinalText(r) == FinalText(s))
            && (r.final != s.final ==> r.last >= 0 && FinalText(r) == Some(LevelText(r.last)))
            && (r.final != s.final && s.last >= 0 ==> FinalText(r) != FinalText(s))
  {
    RunConsistent(start, actions);
    RunFresh(start, actions);
    ReplacedByChange(Run(start, actions), a);
  }

  lemma ReplacedByChange(s: System, a: Action)
    requires Consistent(s) && Fresh(s)
    ensures var r := Do(s, a);
            && (r.final != s.final <==> r.last != s.last)
            && (r.final == s.final ==> FinalText(r) == FinalText(s))
            && (r.final != s.final ==> r.last >= 0 && FinalText(r) == Some(LevelText(r.last)))
            && (r.final != s.final && s.last >= 0 ==> FinalText(r) != FinalText(s))
  {
    hide LevelText, ReadLevel, Whole;
    var r := Do(s, a);
    if s.last >= 0 && r.last >= 0 && LevelText(s.last) == LevelText(r.last) {
      LevelTextInjective(s.last, r.last);
    }
  }

  // ---------------------------------------------------------- the reader gets it

  /** The reader goes on: it neither fails nor opens the file anew; the publisher may do anything. */
  predicate GoesOn(a: Action) {
    !a.ReaderOpens? && !a.ReaderFails?
  }

  predicate AllGoOn(actions: seq<Action>) {
    forall i :: 0 <= i < |actions| ==> GoesOn(actions[i])
  }

  /** How many bytes the reads of a run ask for. */
  function Asked(actions: seq<Action>): nat {
    if actions == [] then 0
    else
      var a := actions[|actions| - 1];
      Asked(actions[..|actions| - 1]) + if a.ReaderReads? then a.count else 0
  }

  /** A reader that opened this text has read so many bytes of it, or has parsed it. */
  predicate Reads(s: System, inode: nat, text: string, lastAtOpen: int, bytes: nat) {
    if s.reader.Reading? then
      && s.reader.inode == inode && s.reader.lastAtOpen == lastAtOpen
      && inode in s.files && s.files[inode] == text
      && |s.reader.got| == (if bytes < |text| then bytes else |text|)
    else
      s.reader == Done(ReadLevel(Some(text)), lastAtOpen) && bytes >= |text|
  }

  lemma StepReads(s: System, a: Action, inode: nat, text: string, lastAtOpen: int, bytes: nat)
    requires Consistent(s) && Reads(s, inode, text, lastAtOpen, bytes) && GoesOn(a)
    ensures Reads(Do(s, a), inode, text, lastAtOpen, bytes + if a.ReaderReads? then a.count else 0)
  {
    hide LevelText, ReadLevel, Whole;
    if s.reader.Reading? && a.ReaderReads? && a.count > 0 && |text| <= |s.reader.got| {
      assert s.reader.got == text;
    }
  }

  lemma {:induction false} RunReads(s: System, actions: seq<Action>, inode: nat, text: string, lastAtOpen: int)
    requires Consistent(s) && Reads(s, inode, text, lastAtOpen, 0) && AllGoOn(actions)
    ensures Reads(Run(s, actions), inode, text, lastAtOpen, Asked(actions))
  {
    hide Do, Reads, Consistent, GoesOn;
    if actions == [] {
      assert Run(s, actions) == s;
    } else {
      var n := |actions| - 1;
      RunReads(s, actions[..n], inode, text, lastAtOpen);
      RunConsistent(s, actions[..n]);
      StepReads(Run(s, actions[..n]), actions[n], inode, text, lastAtOpen, Asked(actions[..n]));
    }
  }

  /**
   In any run of both sides, whatever the publisher does meanwhile and however its reads are sized: a reader that
   opens the final file, goes on and reads once more after its whole text gets the level in it, which is the one
   that was `last` then, if the clock had published one.
  */
  lemma ReaderGetsLevel(start: System, before: seq<Action>, actions: seq<Action>, count: nat)
    requires Initial(start) && Run(start, before).final.Some? && AllGoOn(actions) && count > 0
    requires var s := Run(start, before); s.final.value in s.files && Asked(actions) >= |s.files[s.final.value]|
    ensures var s := Run(start, before);
            var r := Do(Run(Do(s, ReaderOpens), actions), ReaderReads(count)).reader;
            && r.Done? && r.lastAtOpen == s.last && r.result.Some?
            && r.result.value >= 0 && LevelText(r.result.value) == s.files[s.final.value]
            && (s.last >= 0 ==> r.result.value == s.last)
  {
    hide Run, Do, LevelText, ReadLevel;
    var s := Run(start, before);
    RunConsistent(start, before);
    var inode, opening := s.final.value, Do(s, ReaderOpens);
    OpenReads(s);
    RunReads(opening, actions, inode, s.files[inode], s.last);
    RunConsistent(opening, actions);
    FinishReads(Run(opening, actions), count, inode, s.files[inode], s.last, Asked(actions));
    var level :| level in s.levels && s.files[inode] == LevelText(level);
    LevelRoundTrip(level);
    if s.last >= 0 { LevelRoundTrip(s.last); }
  }

  lemma OpenReads(s: System)
    requires Consistent(s) && s.final.Some?
    ensures var r := Do(s, ReaderOpens);
            Consistent(r) && Reads(r, s.final.value, s.files[s.final.value], s.last, 0)
  {
    DoConsistent(s, ReaderOpens);
  }

  lemma FinishReads(s: System, count: nat, inode: nat, text: string, lastAtOpen: int, bytes: nat)
    requires Consistent(s) && Reads(s, inode, text, lastAtOpen, bytes) && bytes >= |text| && count > 0
    ensures Do(s, ReaderReads(count)).reader == Done(ReadLevel(Some(text)), lastAtOpen)
  {
    hide LevelText, ReadLevel, Whole;
    if s.reader.Reading? { assert s.reader.got == text; }
  }

  /** The reader gets nothing without a file, and when a read fails. */
  lemma ReaderGetsNothing(s: System)
    ensures s.final.None? ==> Do(s, ReaderOpens).reader == Done(None, s.last)
    ensures s.reader.Reading? ==> Do(s, ReaderFails).reader.Done? && Do(s, ReaderFails).reader.result == None
  {
  }

  // ------------------------------------------------------- when a publish succeeds

  /** Every 16-bit level fits the 16-byte text buffer. */
  lemma LevelFits(level: uint16)
    ensures |LevelText(level)| < 16
  {
    assert PowerOfTen(5) == 100_000 by {
      assert PowerOfTen(1) == 10 && PowerOfTen(2) == 100 && PowerOfTen(3) == 1000 && PowerOfTen(4) == 10_000;
    }
    DecLength(level, 5);
  }

  /** A write leaves the beginning of the text, as much as got out, in the temporary file, nothing of an older one. */
  lemma WriteLeavesBeginning(s: System, written: nat)
    requires Consistent(s) && s.publisher.Opened?
    ensures var r, text := Do(s, Write(written)), LevelText(s.publisher.level);
            && r.tmp.Some? && r.tmp.value in r.files
            && r.files[r.tmp.value] == text[..if written < |text| then written else |text|]
  {
    hide LevelText;
  }

  /**
   A publish makes its level `last` and the contents of the final file exactly if the text fits the buffer and the open,
   the whole write and the rename succeed; otherwise it leaves both as they were, so that the next tick tries again.
  */
  lemma PublishSucceedsIff(s: System, level: nat, openOk: bool, written: nat, renameOk: bool)
    requires Consistent(s) && s.publisher.Idle? && level != s.last
    ensures var r := Do(Do(Do(Do(s, TickPublishes(level, openOk)), Write(written)), Close), Rename(renameOk));
            var success := |LevelText(level)| < 16 && openOk && written >= |LevelText(level)| && renameOk;
            && r.publisher.Idle?
            && r.last == (if success then level else s.last)
            && FinalText(r) == (if success then Some(LevelText(level)) else FinalText(s))
  {
    hide LevelText;
  }

  /** A publish that meets no failure makes its level `last` and the contents of the final file. */
  lemma UndisturbedPublishSucceeds(s: System, level: uint16, written: nat)
    requires Consistent(s) && s.publisher.Idle? && written >= |LevelText(level)|
    ensures var r := Do(Do(Do(Do(s, TickPublishes(level, true)), Write(written)), Close), Rename(true));
            r.last == level && r.final.Some? && r.final.value in r.files && r.files[r.final.value] == LevelText(level)
  {
    LevelFits(level);
    if level == s.last {
      assert Do(s, TickPublishes(level, true)).publisher.Idle?;
    }
  }
}
