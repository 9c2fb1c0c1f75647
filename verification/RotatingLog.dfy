/**
 The rotating line writer (RotatingGzipWriter in diagnostic_platform/observability.py).  A file is
 the lines written to it, as bytes with their newline; an archive's name is the second it was made
 in, an index for names already taken, and whether it is the compressed form.  Compression keeps the
 lines.
 */
module RotatingLog {
  import opened Common
  import opened Bytes

  const NEWLINE: Byte := 10

  type Line = ByteString
  type Segment = seq<Line>

  datatype Name = Name(stamp: nat, index: nat, zipped: bool)

  type Archives = map<Name, Segment>

  function SizeOf(s: Segment): nat {
    if s == [] then 0 else SizeOf(s[..|s| - 1]) + |s[|s| - 1]|
  }

  function WithNewline(line: ByteString): Line {
    if line != [] && line[|line| - 1] == NEWLINE then line else line + [NEWLINE]
  }

  /** A written line ends with exactly one newline more than it needs: its own, or the one it gets. */
  lemma LineEndsWithNewline(line: ByteString)
    ensures var w := WithNewline(line);
            && w != [] && w[|w| - 1] == 10
            && (if line != [] && line[|line| - 1] == 10 then w == line else w[..|w| - 1] == line)
  {
  }

  /** Within the bound, or a single line that is not. */
  predicate Fits(s: Segment, maxBytes: nat) {
    SizeOf(s) <= maxBytes || |s| == 1
  }

  /** The rotated segments one after the other. */
  function Contents(order: seq<Name>, archives: Archives): Segment
    requires forall n <- order :: n in archives
  {
    if order == [] then []
    else Contents(order[..|order| - 1], archives) + archives[order[|order| - 1]]
  }

  lemma {:induction false} ContentsUnaffected(order: seq<Name>, archives: Archives, n: Name, s: Segment)
    requires (forall m <- order :: m in archives) && n !in order
    ensures Contents(order, archives[n := s]) == Contents(order, archives)
  {
    if order != [] {
      ContentsUnaffected(order[..|order| - 1], archives, n, s);
    }
  }

  lemma ContentsExtended(order: seq<Name>, archives: Archives, n: Name, s: Segment)
    requires (forall m <- order :: m in archives) && n !in archives
    ensures Contents(order + [n], archives[n := s]) == Contents(order, archives) + s
  {
    ContentsUnaffected(order, archives, n, s);
    assert (order + [n])[..|order|] == order;
  }

  lemma SizeOfAppend(s: Segment, line: Line)
    ensures SizeOf(s + [line]) == SizeOf(s) + |line|
  {
    assert (s + [line])[..|s|] == s;
  }

  lemma SizeZeroMeansNoLines(s: Segment)
    requires forall l <- s :: l != []
    ensures SizeOf(s) == 0 ==> s == []
  {
    if s != [] {
      assert s[|s| - 1] in s;
    }
  }

  /**
   The state of the files: `found` and `kept` are what was there at first, `order` the archives made
   since, `written` everything written since.
   */
  datatype Log = Log(maxBytes: nat, current: Segment, archives: Archives,
                     found: Segment, kept: Archives, order: seq<Name>, written: Segment)

  /** The archives made are all there and distinct from each other and from the older ones, which are untouched. */
  ghost predicate NamesSound(s: Log) {
    && (forall n <- s.order :: n in s.archives && n !in s.kept)
    && (forall i, j :: 0 <= i < j < |s.order| ==> s.order[i] != s.order[j])
    && (forall n <- s.kept :: n in s.archives && s.archives[n] == s.kept[n])
  }

  /** Nothing written is lost, doubled or reordered. */
  ghost predicate Conserved(s: Log)
    requires NamesSound(s)
  {
    Contents(s.order, s.archives) + s.current == s.found + s.written
  }

  /** Every segment is within the bound or one oversized line; only what was found at first may be neither. */
  ghost predicate Bounded(s: Log)
    requires NamesSound(s)
  {
    && (forall n <- s.order :: Fits(s.archives[n], s.maxBytes) || s.archives[n] == s.found)
    && (Fits(s.current, s.maxBytes) || s.current == s.found)
  }

  ghost predicate NoEmptyLines(s: Log) {
    (forall l <- s.found :: l != []) && (forall l <- s.written :: l != [])
  }

  ghost predicate Sound(s: Log) {
    NamesSound(s) && Conserved(s) && Bounded(s) && NoEmptyLines(s)
  }

  /** Only an empty file has size zero. */
  lemma SizeZeroIsEmpty(s: Log)
    requires Sound(s) && SizeOf(s.current) == 0
    ensures s.current == []
  {
    assert forall l <- s.found + s.written :: l != [];
    assert forall l <- s.current :: l in Contents(s.order, s.archives) + s.current;
    SizeZeroMeansNoLines(s.current);
  }

  function Rotated(s: Log, target: Name): Log {
    s.(archives := s.archives[target := s.current], order := s.order + [target], current := [])
  }

  lemma RotationKeepsSound(s: Log, target: Name)
    requires Sound(s) && target !in s.archives
    ensures Sound(Rotated(s, target))
  {
    var t := Rotated(s, target);
    assert NamesSound(t);
    ContentsExtended(s.order, s.archives, target, s.current);
    assert t.current == [] && Contents(t.order, t.archives) + [] == Contents(t.order, t.archives);
    assert Fits([], s.maxBytes);
  }

  function Appended(s: Log, payload: Line): Log {
    s.(current := s.current + [payload], written := s.written + [payload])
  }

  lemma AppendBoth<T>(a: seq<T>, b: seq<T>, c: seq<T>, d: seq<T>, x: T)
    requires a + b == c + d
    ensures a + (b + [x]) == c + (d + [x])
  {
    AppendAssoc(a, b, [x]);
    AppendAssoc(c, d, [x]);
  }

  lemma AppendFits(s: Segment, payload: Line, maxBytes: nat)
    requires s == [] || SizeOf(s) + |payload| <= maxBytes
    ensures Fits(s + [payload], maxBytes)
  {
    SizeOfAppend(s, payload);
  }

  lemma AppendKeepsSound(s: Log, payload: Line)
    requires Sound(s) && payload != []
    requires s.current == [] || SizeOf(s.current) + |payload| <= s.maxBytes
    ensures Sound(Appended(s, payload))
  {
    AppendFits(s.current, payload, s.maxBytes);
    AppendBoth(Contents(s.order, s.archives), s.current, s.found, s.written, payload);
  }

  // ---------------------------------------------------------------- any sequence of writes

  /** A write: the line, and the name a rotation would use. */
  datatype Write = Write(line: ByteString, target: Name)

  predicate Rotates(s: Log, w: Write) {
    SizeOf(s.current) > 0 && SizeOf(s.current) + |WithNewline(w.line)| > s.maxBytes
  }

  function AfterWrite(s: Log, w: Write): Log {
    Appended(if Rotates(s, w) then Rotated(s, w.target) else s, WithNewline(w.line))
  }

  function AfterWrites(s: Log, ws: seq<Write>): Log {
    if ws == [] then s else AfterWrite(AfterWrites(s, ws[..|ws| - 1]), ws[|ws| - 1])
  }

  function Lines(ws: seq<Write>): Segment {
    if ws == [] then [] else Lines(ws[..|ws| - 1]) + [WithNewline(ws[|ws| - 1].line)]
  }

  /** Every rotation got a name that nothing had. */
  predicate FreshNames(s: Log, ws: seq<Write>) {
    ws == [] ||
    (FreshNames(s, ws[..|ws| - 1]) &&
     var before := AfterWrites(s, ws[..|ws| - 1]);
     Rotates(before, ws[|ws| - 1]) ==> ws[|ws| - 1].target !in before.archives)
  }

  lemma WriteKeepsSound(s: Log, w: Write)
    requires Sound(s) && (Rotates(s, w) ==> w.target !in s.archives)
    ensures Sound(AfterWrite(s, w))
  {
    if Rotates(s, w) {
      RotationKeepsSound(s, w.target);
      AppendKeepsSound(Rotated(s, w.target), WithNewline(w.line));
    } else {
      if SizeOf(s.current) == 0 {
        SizeZeroIsEmpty(s);
      }
      AppendKeepsSound(s, WithNewline(w.line));
    }
  }

  /**
   After any sequence of writes the segments in the order of their rotation, followed by the current
   file, are what was there at first and then every line written, in order; and every segment is
   within the bound or one oversized line, unless it is what was there at first.
   */
  lemma {:induction false} WritesAreConserved(s: Log, ws: seq<Write>)
    requires Sound(s) && FreshNames(s, ws)
    ensures Sound(AfterWrites(s, ws))
    ensures AfterWrites(s, ws).found == s.found && AfterWrites(s, ws).written == s.written + Lines(ws)
  {
    if ws == [] {
      assert s.written + [] == s.written;
    } else {
      var front, w := ws[..|ws| - 1], ws[|ws| - 1];
      WritesAreConserved(s, front);
      WriteKeepsSound(AfterWrites(s, front), w);
      AppendAssoc(s.written, Lines(front), [WithNewline(w.line)]);
    }
  }

  // ---------------------------------------------------------------- when the bound holds

  /** Nothing has been written or rotated yet. */
  predicate JustOpened(s: Log) {
    s.order == [] && s.written == [] && s.current == s.found
  }

  /** Every rotated segment and the current file are within the bound or one oversized line. */
  ghost predicate AllFit(s: Log)
    requires NamesSound(s)
  {
    (forall n <- s.order :: Fits(s.archives[n], s.maxBytes)) && Fits(s.current, s.maxBytes)
  }

  /** A file found over the bound is still there, untouched: as the current file or as the first archive. */
  ghost predicate FoundUntouched(s: Log)
    requires NamesSound(s)
  {
    !Fits(s.found, s.maxBytes) ==>
      if s.order == [] then s.current == s.found else s.archives[s.order[0]] == s.found
  }

  lemma WriteLeavesFound(s: Log, w: Write)
    requires Sound(s) && FoundUntouched(s) && (Rotates(s, w) ==> w.target !in s.archives)
    ensures NamesSound(AfterWrite(s, w)) && FoundUntouched(AfterWrite(s, w))
  {
    WriteKeepsSound(s, w);
    var t := AfterWrite(s, w);
    if !Fits(s.found, s.maxBytes) {
      if s.order == [] {
        assert Rotates(s, w) && t.order == [w.target];
      } else {
        assert s.order[0] in s.order && t.order[0] == s.order[0];
      }
    }
  }

  lemma {:induction false} WritesLeaveFound(s: Log, ws: seq<Write>)
    requires Sound(s) && FoundUntouched(s) && FreshNames(s, ws)
    ensures Sound(AfterWrites(s, ws)) && FoundUntouched(AfterWrites(s, ws))
    ensures AfterWrites(s, ws).found == s.found && AfterWrites(s, ws).maxBytes == s.maxBytes
  {
    if ws != [] {
      var front := ws[..|ws| - 1];
      WritesLeaveFound(s, front);
      WriteLeavesFound(AfterWrites(s, front), ws[|ws| - 1]);
      WriteKeepsSound(AfterWrites(s, front), ws[|ws| - 1]);
    }
  }

  /** From opening on, after any writes, every segment meets the bound exactly when the file that was found did. */
  lemma SegmentsFitIff(s: Log, ws: seq<Write>)
    requires Sound(s) && JustOpened(s) && FreshNames(s, ws)
    ensures NamesSound(AfterWrites(s, ws)) && (AllFit(AfterWrites(s, ws)) <==> Fits(s.found, s.maxBytes))
  {
    WritesLeaveFound(s, ws);
    var t := AfterWrites(s, ws);
    if !Fits(s.found, s.maxBytes) && t.order != [] {
      assert t.order[0] in t.order;
    }
  }

  /** Two lines found under a bound of two bytes: the first write makes them a segment of four. */
  lemma FoundOverBoundStays() returns (s: Log, w: Write)
    ensures Sound(s) && JustOpened(s) && s.maxBytes == 2 && FreshNames(s, [w])
    ensures var t := AfterWrites(s, [w]);
            NamesSound(t) && t.order == [w.target] && t.archives[w.target] == s.found && SizeOf(s.found) == 4
            && !AllFit(t)
  {
    var lines: Segment := [[65, NEWLINE], [66, NEWLINE]];
    s := Log(2, lines, map[], lines, map[], [], []);
    w := Write([67], Name(0, 0, false));
    SizeOfAppend([], lines[0]);
    SizeOfAppend([] + [lines[0]], lines[1]);
    assert [] + [lines[0]] + [lines[1]] == lines;
    assert [] + lines == lines + [];
    assert [w][..0] == [] && AfterWrites(s, []) == s && FreshNames(s, []);
    SegmentsFitIff(s, [w]);
    assert AfterWrites(s, [w]) == AfterWrite(s, w);
  }

  // ---------------------------------------------------------------- the writer

  class RotatingWriter {
    const maxBytes: nat
    const gzipRotated: bool
    var current: Segment
    var archives: Archives
    var isOpen: bool
    ghost const found: Segment
    ghost const kept: Archives
    ghost var order: seq<Name>
    ghost var written: Segment

    ghost function View(): Log
      reads this
    {
      Log(maxBytes, current, archives, found, kept, order, written)
    }

    /** Opens the file for appending; `existing` is what it holds already. */
    constructor (maxBytes: int, gzipRotated: bool, existing: Segment, others: Archives)
      requires forall l <- existing :: l != []
      ensures Sound(View()) && isOpen
      ensures View() == Log(if maxBytes < 1 then 1 else maxBytes, existing, others, existing, others, [], [])
    {
      this.maxBytes := if maxBytes < 1 then 1 else maxBytes;
      this.gzipRotated := gzipRotated;
      current, archives, isOpen := existing, others, true;
      found, kept, order, written := existing, others, [], [];
    }

    /** The first index of this second that neither a plain nor a compressed archive has. */
    method RotationTarget(stamp: nat) returns (index: nat)
      ensures Name(stamp, index, false) !in archives && Name(stamp, index, true) !in archives
      ensures forall i | 0 <= i < index :: Name(stamp, i, false) in archives || Name(stamp, i, true) in archives
    {
      index := 0;
      ghost var taken := set m | m in archives && m.stamp == stamp;
      while Name(stamp, index, false) in archives || Name(stamp, index, true) in archives
        invariant taken <= archives.Keys
        invariant forall i | 0 <= i < index :: Name(stamp, i, false) in archives || Name(stamp, i, true) in archives
        invariant forall m <- archives :: m.stamp == stamp && m.index >= index ==> m in taken
        decreases taken
      {
        ghost var here := {Name(stamp, index, false), Name(stamp, index, true)};
        assert taken - here < taken;
        taken := taken - here;
        index := index + 1;
      }
    }

    /**
     An empty file is not rotated.  Any other one is renamed and, if asked for, compressed, whereupon
     the plain archive is removed: what is left is one archive under a new name.
     */
    method Rotate(stamp: nat) returns (ghost target: Name)
      modifies this`isOpen, this`archives, this`current, this`order
      ensures isOpen && target.zipped == gzipRotated
      ensures SizeOf(old(current)) > 0 ==> target !in old(archives) && target.(zipped := !gzipRotated) !in archives
      ensures View() == if SizeOf(old(current)) == 0 then old(View()) else Rotated(old(View()), target)
    {
      isOpen := true;
      target := Name(stamp, 0, gzipRotated);
      if SizeOf(current) == 0 {
        return;
      }
      var index := RotationTarget(stamp);
      var plain := Name(stamp, index, false);
      archives := archives[plain := current];
      current := [];
      if gzipRotated {
        archives := archives[plain.(zipped := true) := archives[plain]];
        archives := archives - {plain};
      }
      target := plain.(zipped := gzipRotated);
      order := order + [target];
    }

    /** The line goes to the end of the current file, after a rotation if it would not fit. */
    method WriteLine(line: ByteString, stamp: nat) returns (ghost target: Name)
      requires Sound(View())
      modifies this
      ensures View() == AfterWrite(old(View()), Write(line, target))
      ensures Rotates(old(View()), Write(line, target)) ==> target !in old(archives)
      ensures var size := SizeOf(old(current));
              var full := size > 0 && size + |WithNewline(line)| > maxBytes;
              && current == (if full then [] else old(current)) + [WithNewline(line)]
              && archives == (if full then old(archives)[target := old(current)] else old(archives))
      ensures Sound(View()) && isOpen
    {
      ghost var was := View();
      var payload := WithNewline(line);
      isOpen := true;
      target := Name(stamp, 0, gzipRotated);
      var size := SizeOf(current);
      if size > 0 && size + |payload| > maxBytes {
        target := Rotate(stamp);
      }
      current, written := current + [payload], written + [payload];
      WriteKeepsSound(was, Write(line, target));
    }

    method Close()
      modifies this`isOpen
      ensures !isOpen
    {
      isOpen := false;
    }
  }
}
