/** The positional body diff of internal/tracker/helpers.go: an edit script over
    characters becomes a list of chunks that carry byte offsets. */
module TextDiff {
  import opened Text

  datatype EditKind = Equal | Insertion | Deletion
  datatype Edit = Edit(kind: EditKind, text: string)

  datatype ChunkKind = Added | Removed
  datatype DiffChunk = DiffChunk(kind: ChunkKind, content: string,
                                 baseStart: nat, baseLen: nat, headStart: nat, headLen: nat)

  // -------------------------------------------------------------------------
  // The two texts an edit script spells.
  // -------------------------------------------------------------------------

  /** What an edit contributes to base and to head. */
  function BaseShare(e: Edit): string {
    if e.kind == Insertion then "" else e.text
  }

  function HeadShare(e: Edit): string {
    if e.kind == Deletion then "" else e.text
  }

  function BaseText(edits: seq<Edit>): string {
    if edits == [] then "" else BaseShare(edits[0]) + BaseText(edits[1..])
  }

  function HeadText(edits: seq<Edit>): string {
    if edits == [] then "" else HeadShare(edits[0]) + HeadText(edits[1..])
  }

  // -------------------------------------------------------------------------
  // The chunk loop.
  // -------------------------------------------------------------------------

  /** Equal text and white space give no chunk. */
  predicate IsSilent(e: Edit) {
    e.kind == Equal || TrimSpace(e.text) == ""
  }

  function ChunkOf(e: Edit, basePos: nat, headPos: nat): DiffChunk {
    if e.kind == Insertion then DiffChunk(Added, e.text, basePos, 0, headPos, |e.text|)
    else DiffChunk(Removed, e.text, basePos, |e.text|, headPos, 0)
  }

  function Chunks(edits: seq<Edit>, basePos: nat, headPos: nat): seq<DiffChunk> {
    if edits == [] then []
    else
      var rest := Chunks(edits[1..], basePos + |BaseShare(edits[0])|, headPos + |HeadShare(edits[0])|);
      if IsSilent(edits[0]) then rest else [ChunkOf(edits[0], basePos, headPos)] + rest
  }

  lemma ChunksStep(done: seq<DiffChunk>, todo: seq<Edit>, basePos: nat, headPos: nat)
    requires todo != []
    ensures done + Chunks(todo, basePos, headPos)
         == (if IsSilent(todo[0]) then done else done + [ChunkOf(todo[0], basePos, headPos)])
            + Chunks(todo[1..], basePos + |BaseShare(todo[0])|, headPos + |HeadShare(todo[0])|)
  {}

  method ComputeChunks(diffs: seq<Edit>) returns (chunks: seq<DiffChunk>)
    ensures chunks == Chunks(diffs, 0, 0)
  {
    chunks := [];
    var basePos, headPos := 0, 0;
    ghost var todo := diffs;
    assert chunks + Chunks(todo, 0, 0) == Chunks(diffs, 0, 0);
    for i := 0 to |diffs|
      invariant 0 <= basePos && 0 <= headPos
      invariant todo == diffs[i..]
      invariant chunks + Chunks(todo, basePos, headPos) == Chunks(diffs, 0, 0)
    {
      var d := diffs[i];
      var len := |d.text|;
      ChunksStep(chunks, todo, basePos, headPos);
      todo := todo[1..];
      match d.kind {
        case Equal =>
          basePos := basePos + len;
          headPos := headPos + len;
        case Insertion =>
          if TrimSpace(d.text) != "" {
            chunks := chunks + [DiffChunk(Added, d.text, basePos, 0, headPos, len)];
          }
          headPos := headPos + len;
        case Deletion =>
          if TrimSpace(d.text) != "" {
            chunks := chunks + [DiffChunk(Removed, d.text, basePos, len, headPos, 0)];
          }
          basePos := basePos + len;
      }
    }
  }

  // -------------------------------------------------------------------------
  // Offsets: every chunk slices its own content, in order, without overlap.
  // -------------------------------------------------------------------------

  ghost predicate SlicesItself(c: DiffChunk, base: string, head: string) {
    && c.baseStart + c.baseLen <= |base| && c.headStart + c.headLen <= |head|
    && match c.kind
       case Added => c.baseLen == 0 && head[c.headStart..c.headStart + c.headLen] == c.content
       case Removed => c.headLen == 0 && base[c.baseStart..c.baseStart + c.baseLen] == c.content
  }

  /** The chunks come in order and do not overlap, in base and in head. */
  ghost predicate InOrder(chunks: seq<DiffChunk>, basePos: nat, headPos: nat) {
    chunks != [] ==>
      && basePos <= chunks[0].baseStart && headPos <= chunks[0].headStart
      && InOrder(chunks[1..], chunks[0].baseStart + chunks[0].baseLen, chunks[0].headStart + chunks[0].headLen)
  }

  lemma InOrderEarlier(chunks: seq<DiffChunk>, basePos: nat, headPos: nat, basePos': nat, headPos': nat)
    requires InOrder(chunks, basePos, headPos) && basePos' <= basePos && headPos' <= headPos
    ensures InOrder(chunks, basePos', headPos')
  {}

  /** Moving a cursor over the first piece of what is left. */
  lemma Advance(all: string, pos: nat, piece: string, rest: string)
    requires pos <= |all| && all[pos..] == piece + rest
    ensures pos + |piece| <= |all|
    ensures all[pos..pos + |piece|] == piece && all[pos + |piece|..] == rest
  {
    assert all[pos..][..|piece|] == piece;
    assert all[pos..][|piece|..] == rest;
  }

  lemma AdvanceEdit(edits: seq<Edit>, base: string, pos: nat)
    requires edits != [] && pos <= |base| && base[pos..] == BaseText(edits)
    ensures var len := |BaseShare(edits[0])|;
            && pos + len <= |base| && base[pos..pos + len] == BaseShare(edits[0])
            && base[pos + len..] == BaseText(edits[1..])
  {
    Advance(base, pos, BaseShare(edits[0]), BaseText(edits[1..]));
  }

  lemma AdvanceEditHead(edits: seq<Edit>, head: string, pos: nat)
    requires edits != [] && pos <= |head| && head[pos..] == HeadText(edits)
    ensures var len := |HeadShare(edits[0])|;
            && pos + len <= |head| && head[pos..pos + len] == HeadShare(edits[0])
            && head[pos + len..] == HeadText(edits[1..])
  {
    Advance(head, pos, HeadShare(edits[0]), HeadText(edits[1..]));
  }

  /** The shares of the edits walk over the text from `pos` to its end. */
  ghost predicate WalksOver(edits: seq<Edit>, share: Edit -> string, text: string, pos: nat) {
    if edits == [] then pos == |text|
    else
      var pos' := pos + |share(edits[0])|;
      pos' <= |text| && text[pos..pos'] == share(edits[0]) && WalksOver(edits[1..], share, text, pos')
  }

  lemma {:induction false} BaseIsWalked(edits: seq<Edit>, base: string, pos: nat)
    requires pos <= |base| && base[pos..] == BaseText(edits)
    ensures WalksOver(edits, BaseShare, base, pos)
  {
    if edits != [] {
      AdvanceEdit(edits, base, pos);
      BaseIsWalked(edits[1..], base, pos + |BaseShare(edits[0])|);
    }
  }

  lemma {:induction false} HeadIsWalked(edits: seq<Edit>, head: string, pos: nat)
    requires pos <= |head| && head[pos..] == HeadText(edits)
    ensures WalksOver(edits, HeadShare, head, pos)
  {
    if edits != [] {
      AdvanceEditHead(edits, head, pos);
      HeadIsWalked(edits[1..], head, pos + |HeadShare(edits[0])|);
    }
  }

  lemma ChunkSlices(e: Edit, base: string, head: string, pos: nat, headPos: nat)
    requires !IsSilent(e)
    requires pos + |BaseShare(e)| <= |base| && base[pos..pos + |BaseShare(e)|] == BaseShare(e)
    requires headPos + |HeadShare(e)| <= |head| && head[headPos..headPos + |HeadShare(e)|] == HeadShare(e)
    ensures SlicesItself(ChunkOf(e, pos, headPos), base, head)
  {}

  /** An invariant of the two positions that makes every chunk good. */
  ghost predicate KeepsGood(walks: (seq<Edit>, nat, nat) -> bool, good: DiffChunk -> bool) {
    forall edits: seq<Edit>, pos: nat, headPos: nat {:trigger walks(edits, pos, headPos)} ::
      edits != [] && walks(edits, pos, headPos) ==>
        && walks(edits[1..], pos + |BaseShare(edits[0])|, headPos + |HeadShare(edits[0])|)
        && (!IsSilent(edits[0]) ==> good(ChunkOf(edits[0], pos, headPos)))
  }

  lemma {:induction false} AllChunksGood(
    edits: seq<Edit>, pos: nat, headPos: nat, walks: (seq<Edit>, nat, nat) -> bool, good: DiffChunk -> bool)
    requires KeepsGood(walks, good) && walks(edits, pos, headPos)
    ensures forall c :: c in Chunks(edits, pos, headPos) ==> good(c)
  {
    if edits != [] {
      AllChunksGood(edits[1..], pos + |BaseShare(edits[0])|, headPos + |HeadShare(edits[0])|, walks, good);
    }
  }

  lemma ChunksSliceFrom(edits: seq<Edit>, base: string, head: string)
    requires WalksOver(edits, BaseShare, base, 0) && WalksOver(edits, HeadShare, head, 0)
    ensures forall c :: c in Chunks(edits, 0, 0) ==> SlicesItself(c, base, head)
  {
    var walks := (es: seq<Edit>, pos: nat, headPos: nat) =>
      WalksOver(es, BaseShare, base, pos) && WalksOver(es, HeadShare, head, headPos);
    var good := (c: DiffChunk) => SlicesItself(c, base, head);
    forall es: seq<Edit>, pos: nat, headPos: nat | es != [] && walks(es, pos, headPos) && !IsSilent(es[0])
      ensures good(ChunkOf(es[0], pos, headPos))
    {
      ChunkSlices(es[0], base, head, pos, headPos);
    }
    assert KeepsGood(walks, good);
    AllChunksGood(edits, 0, 0, walks, good);
  }

  lemma {:induction false} ChunksInOrder(edits: seq<Edit>, basePos: nat, headPos: nat)
    ensures InOrder(Chunks(edits, basePos, headPos), basePos, headPos)
  {
    if edits != [] {
      var e, rest := edits[0], edits[1..];
      var basePos', headPos' := basePos + |BaseShare(e)|, headPos + |HeadShare(e)|;
      var others := Chunks(rest, basePos', headPos');
      ChunksInOrder(rest, basePos', headPos');
      if IsSilent(e) {
        InOrderEarlier(others, basePos', headPos', basePos, headPos);
      } else {
        assert ([ChunkOf(e, basePos, headPos)] + others)[1..] == others;
      }
    }
  }

  lemma ChunksSliceThemselves(edits: seq<Edit>)
    ensures var chunks := Chunks(edits, 0, 0);
            && InOrder(chunks, 0, 0)
            && forall c :: c in chunks ==> SlicesItself(c, BaseText(edits), HeadText(edits))
  {
    var base, head := BaseText(edits), HeadText(edits);
    assert base[0..] == base && head[0..] == head;
    BaseIsWalked(edits, base, 0);
    HeadIsWalked(edits, head, 0);
    ChunksSliceFrom(edits, base, head);
    ChunksInOrder(edits, 0, 0);
  }

  // -------------------------------------------------------------------------
  // Replay.
  // -------------------------------------------------------------------------

  ghost predicate Fit(chunks: seq<DiffChunk>, len: nat, cursor: nat) {
    if chunks == [] then cursor <= len
    else cursor <= chunks[0].baseStart && Fit(chunks[1..], len, chunks[0].baseStart + chunks[0].baseLen)
  }

  lemma {:induction false} FitBound(chunks: seq<DiffChunk>, len: nat, cursor: nat)
    requires Fit(chunks, len, cursor)
    ensures cursor <= len
  {
    if chunks != [] { FitBound(chunks[1..], len, chunks[0].baseStart + chunks[0].baseLen); }
  }

  /** Copy up to the chunk, then add or skip, then the rest. */
  function Join(c: DiffChunk, base: string, cursor: nat, rest: string): string
    requires cursor <= c.baseStart <= |base|
  {
    base[cursor..c.baseStart] + if c.kind == Added then c.content + rest else rest
  }

  /** Apply the chunks to the base. */
  function Replay(chunks: seq<DiffChunk>, base: string, cursor: nat): string
    requires Fit(chunks, |base|, cursor)
  {
    FitBound(chunks, |base|, cursor);
    if chunks == [] then base[cursor..]
    else
      var c := chunks[0];
      FitBound(chunks[1..], |base|, c.baseStart + c.baseLen);
      Join(c, base, cursor, Replay(chunks[1..], base, c.baseStart + c.baseLen))
  }

  /** What the chunks can tell of an edit: white-space edits have not happened. */
  function ReplayShare(e: Edit): string {
    if IsSilent(e) then BaseShare(e) else HeadShare(e)
  }

  function Replayed(edits: seq<Edit>): string {
    if edits == [] then "" else ReplayShare(edits[0]) + Replayed(edits[1..])
  }

  /** Replaying the chunks from `cursor` on gives `result`. */
  ghost predicate Replays(base: string, chunks: seq<DiffChunk>, cursor: nat, result: string) {
    Fit(chunks, |base|, cursor) && Replay(chunks, base, cursor) == result
  }

  lemma ReplayChunk(c: DiffChunk, others: seq<DiffChunk>, base: string, cursor: nat, rest: string)
    requires cursor <= c.baseStart <= |base| && Replays(base, others, c.baseStart + c.baseLen, rest)
    ensures Replays(base, [c] + others, cursor, Join(c, base, cursor, rest))
  {
    assert ([c] + others)[1..] == others;
  }

  /** A way to replay: with no chunks what is left is copied, and chunks are joined one at a time. */
  ghost predicate IsReplay(base: string, replays: (seq<DiffChunk>, nat, string) -> bool) {
    && (forall k: nat {:trigger replays([], k, base[k..])} :: k <= |base| ==> replays([], k, base[k..]))
    && (forall c: DiffChunk, others, k: nat, r {:trigger replays([c] + others, k, Join(c, base, k, r))} ::
          k <= c.baseStart <= |base| && replays(others, c.baseStart + c.baseLen, r)
          ==> replays([c] + others, k, Join(c, base, k, r)))
  }

  lemma CopySilent(e: Edit, base: string, pos: nat, cursor: nat, r: string)
    requires cursor <= pos && pos + |BaseShare(e)| <= |base| && base[pos..pos + |BaseShare(e)|] == BaseShare(e) && IsSilent(e)
    ensures base[cursor..pos + |BaseShare(e)|] + r == base[cursor..pos] + (ReplayShare(e) + r)
  {
    CopyOn(base, cursor, pos, pos + |BaseShare(e)|, r);
  }

  lemma JoinLoud(e: Edit, base: string, pos: nat, headPos: nat, cursor: nat, r: string)
    requires cursor <= pos <= |base| && !IsSilent(e)
    ensures Join(ChunkOf(e, pos, headPos), base, cursor, r) == base[cursor..pos] + (ReplayShare(e) + r)
  {
    assert "" + r == r;
  }

  lemma ReplayLoud(
    e: Edit, others: seq<DiffChunk>, base: string, replays: (seq<DiffChunk>, nat, string) -> bool,
    pos: nat, headPos: nat, cursor: nat, r: string)
    requires IsReplay(base, replays) && !IsSilent(e) && cursor <= pos <= |base|
    requires replays(others, pos + |BaseShare(e)|, r)
    ensures replays([ChunkOf(e, pos, headPos)] + others, cursor, base[cursor..pos] + (ReplayShare(e) + r))
  {
    var c := ChunkOf(e, pos, headPos);
    assert replays([c] + others, cursor, Join(c, base, cursor, r));
    JoinLoud(e, base, pos, headPos, cursor, r);
  }

  lemma ReplayNone(base: string, replays: (seq<DiffChunk>, nat, string) -> bool, cursor: nat)
    requires IsReplay(base, replays) && cursor <= |base|
    ensures replays([], cursor, base[cursor..|base|] + "")
  {
    assert base[cursor..] == base[cursor..|base|] + "";
    assert replays([], cursor, base[cursor..]);
  }

  /** Induction over the edits. */
  lemma {:induction false} ReplayWalk(
    edits: seq<Edit>, base: string, replays: (seq<DiffChunk>, nat, string) -> bool, pos: nat, headPos: nat, cursor: nat)
    requires cursor <= pos <= |base| && WalksOver(edits, BaseShare, base, pos) && IsReplay(base, replays)
    ensures replays(Chunks(edits, pos, headPos), cursor, base[cursor..pos] + Replayed(edits))
  {
    if edits == [] {
      ReplayNone(base, replays, cursor);
    } else {
      var e, rest := edits[0], edits[1..];
      var pos', headPos' := pos + |BaseShare(e)|, headPos + |HeadShare(e)|;
      var others, r := Chunks(rest, pos', headPos'), Replayed(rest);
      if IsSilent(e) {
        ReplayWalk(rest, base, replays, pos', headPos', cursor);
        CopySilent(e, base, pos, cursor, r);
      } else {
        ReplayWalk(rest, base, replays, pos', headPos', pos');
        CopyNone(base, pos', r);
        ReplayLoud(e, others, base, replays, pos, headPos, cursor, r);
      }
    }
  }

  lemma CopyOn(base: string, cursor: nat, pos: nat, pos': nat, rest: string)
    requires cursor <= pos <= pos' <= |base|
    ensures base[cursor..pos'] + rest == base[cursor..pos] + (base[pos..pos'] + rest)
  {}

  lemma CopyNone(base: string, pos: nat, rest: string)
    requires pos <= |base|
    ensures base[pos..pos] + rest == rest
  {}

  ghost function Replayer(base: string): (seq<DiffChunk>, nat, string) -> bool {
    (chunks: seq<DiffChunk>, k: nat, r: string) => Replays(base, chunks, k, r)
  }

  lemma ReplayerIsReplay(base: string)
    ensures IsReplay(base, Replayer(base))
  {
    var replays := Replayer(base);
    forall c: DiffChunk, others, k: nat, r | k <= c.baseStart <= |base| && replays(others, c.baseStart + c.baseLen, r)
      ensures replays([c] + others, k, Join(c, base, k, r))
    {
      ReplayChunk(c, others, base, k, r);
    }
  }

  lemma ReplayAll(edits: seq<Edit>)
    ensures Replays(BaseText(edits), Chunks(edits, 0, 0), 0, Replayed(edits))
  {
    var base := BaseText(edits);
    assert base[0..] == base;
    BaseIsWalked(edits, base, 0);
    ReplayerIsReplay(base);
    ReplayWalk(edits, base, Replayer(base), 0, 0, 0);
    assert base[0..0] + Replayed(edits) == Replayed(edits);
  }

  function EraseSpace(t: string): string {
    if t == "" then ""
    else if IsSpace(t[0]) then EraseSpace(t[1..])
    else [t[0]] + EraseSpace(t[1..])
  }

  lemma {:induction false} EraseConcat(a: string, b: string)
    ensures EraseSpace(a + b) == EraseSpace(a) + EraseSpace(b)
  {
    if a == "" {
      assert a + b == b;
    } else {
      EraseConcat(a[1..], b);
      assert (a + b)[0] == a[0] && (a + b)[1..] == a[1..] + b;
    }
  }

  lemma {:induction false} EraseBlank(a: string)
    requires IsBlank(a)
    ensures EraseSpace(a) == ""
  {
    if a != "" { EraseBlank(a[1..]); }
  }

  /** Characters of white-space deletions less those of white-space insertions. */
  function DroppedSurplus(edits: seq<Edit>): int {
    if edits == [] then 0
    else
      (if TrimSpace(edits[0].text) != "" || edits[0].kind == Equal then 0
       else if edits[0].kind == Deletion then |edits[0].text| else -|edits[0].text|)
      + DroppedSurplus(edits[1..])
  }

  ghost predicate NothingDropped(edits: seq<Edit>) {
    forall e :: e in edits && e.kind != Equal ==> TrimSpace(e.text) != ""
  }

  lemma {:induction false} ReplayedVersusHead(edits: seq<Edit>)
    ensures EraseSpace(Replayed(edits)) == EraseSpace(HeadText(edits))
    ensures |Replayed(edits)| == |HeadText(edits)| + DroppedSurplus(edits)
    ensures NothingDropped(edits) ==> Replayed(edits) == HeadText(edits)
  {
    if edits != [] {
      var e, rest := edits[0], edits[1..];
      ReplayedVersusHead(rest);
      TrimSpaceBlank(e.text);
      if IsBlank(e.text) { EraseBlank(e.text); }
      EraseConcat(ReplayShare(e), Replayed(rest));
      EraseConcat(HeadShare(e), HeadText(rest));
    }
  }

  /** Replaying the chunks of any edit script on its base spells head up to white
      space, and head itself when no white-space edit was dropped. */
  lemma ReplaySpellsHead(edits: seq<Edit>)
    ensures Fit(Chunks(edits, 0, 0), |BaseText(edits)|, 0)
    ensures var t := Replay(Chunks(edits, 0, 0), BaseText(edits), 0);
            && EraseSpace(t) == EraseSpace(HeadText(edits))
            && |t| == |HeadText(edits)| + DroppedSurplus(edits)
            && (NothingDropped(edits) ==> t == HeadText(edits))
  {
    ReplayAll(edits);
    ReplayedVersusHead(edits);
  }

  /** A dropped white-space edit is really lost. */
  lemma DroppedEditIsLost()
    ensures var edits := [Edit(Equal, "a"), Edit(Insertion, " "), Edit(Equal, "b")];
            Chunks(edits, 0, 0) == [] && BaseText(edits) == "ab" && HeadText(edits) == "a b"
  {
    var edits := [Edit(Equal, "a"), Edit(Insertion, " "), Edit(Equal, "b")];
    TrimSpaceBlank(" ");
    assert edits[1..] == [Edit(Insertion, " "), Edit(Equal, "b")];
    assert edits[1..][1..] == [Edit(Equal, "b")];
    assert edits[1..][1..][1..] == [];
  }

  /** With as much white space dropped from one side as from the other only the lengths are
      sure to agree: a moved space is lost, a replaced one is not. */
  lemma SurplusZeroDecidesNothing()
    ensures var moved := [Edit(Deletion, " "), Edit(Equal, "a"), Edit(Insertion, " ")];
            DroppedSurplus(moved) == 0 && Chunks(moved, 0, 0) == [] && BaseText(moved) == " a" && HeadText(moved) == "a "
    ensures var replaced := [Edit(Deletion, " "), Edit(Insertion, " ")];
            DroppedSurplus(replaced) == 0 && Chunks(replaced, 0, 0) == [] && BaseText(replaced) == " " == HeadText(replaced)
  {
    TrimSpaceBlank(" ");
    var added, kept, gone := Edit(Insertion, " "), Edit(Equal, "a"), Edit(Deletion, " ");
    assert [added][1..] == [] && [kept, added][1..] == [added];
    assert [gone, kept, added][1..] == [kept, added] && [gone, added][1..] == [added];
    assert HeadText([added]) == " " + "" == " " && BaseText([added]) == "" + "" == "";
    assert HeadText([kept, added]) == "a" + " " == "a " && BaseText([kept, added]) == "a" + "" == "a";
    assert BaseText([gone, kept, added]) == " " + "a" == " a" && BaseText([gone, added]) == " " + "" == " ";
  }
}
