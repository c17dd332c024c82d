/** `P1Parser`: the stream framer. It keeps the bytes that do not yet form
    a telegram and cuts candidates out of the stream by the `/` that starts
    a telegram and the `\r\n!` plus four hex digits that end it. */
module Parser {
  import opened Text
  import opened Crc16
  import opened Checksum
  import opened Objects
  import opened Telegram

  // ---------------------------------------------------------------------
  // The terminator

  /** `re.search(b"\r\n\\![0-9a-fA-F]{4}", ..)` matches at position `p`. */
  predicate MarkerAt(s: bytes, p: nat)
  {
    && p + 7 <= |s|
    && s[p] == CR && s[p + 1] == LF && s[p + 2] == Bang
    && IsHexByte(s[p + 3]) && IsHexByte(s[p + 4]) && IsHexByte(s[p + 5]) && IsHexByte(s[p + 6])
  }

  /** The end of the leftmost terminator starting at or after `from`. */
  function FindMarker(s: bytes, from: nat): (r: Option<nat>)
    decreases |s| - from
    ensures r.Some? ==> from + 7 <= r.value <= |s|
  {
    if from + 7 > |s| then None
    else if MarkerAt(s, from) then Some(from + 7)
    else FindMarker(s, from + 1)
  }

  /** The search finds a terminator with none before it, or there is
      none. */
  lemma {:induction false} FindMarkerMeaning(s: bytes, from: nat)
    ensures var r := FindMarker(s, from);
      && (r.Some? ==> MarkerAt(s, r.value - 7) && forall p | from <= p < r.value - 7 :: !MarkerAt(s, p))
      && (r.None? ==> forall p | from <= p :: !MarkerAt(s, p))
    decreases |s| - from
  {
    if from + 7 <= |s| && !MarkerAt(s, from) {
      FindMarkerMeaning(s, from + 1);
    }
  }

  /** The leftmost terminator is the one with none before it. */
  lemma {:induction false} FirstMarker(s: bytes, from: nat, p: nat)
    requires from <= p && MarkerAt(s, p) && forall q | from <= q < p :: !MarkerAt(s, q)
    ensures FindMarker(s, from) == Some(p + 7)
    decreases p - from
  {
    if from < p {
      FirstMarker(s, from + 1, p);
    }
  }

  /** Bytes appended after a terminator do not move it. */
  lemma {:induction false} FindMarkerAppend(s: bytes, t: bytes, from: nat)
    requires FindMarker(s, from).Some?
    ensures FindMarker(s + t, from) == FindMarker(s, from)
    decreases |s| - from
  {
    assert MarkerAt(s + t, from) == MarkerAt(s, from) by {
      if from + 7 <= |s| {
        assert (s + t)[from..from + 7] == s[from..from + 7];
      }
    }
    if !MarkerAt(s, from) {
      FindMarkerAppend(s, t, from + 1);
    }
  }

  lemma MarkerShift(b: bytes, r: nat, f: nat)
    requires r <= |b|
    ensures MarkerAt(b[r..], f) == MarkerAt(b, r + f)
  {
    if r + f + 7 <= |b| {
      assert b[r..][f..f + 7] == b[r + f..r + f + 7];
    }
  }

  /** Searching for a terminator after `r` bytes were sliced off finds the
      same one, `r` places earlier. */
  lemma {:induction false} FindMarkerShift(b: bytes, r: nat, f: nat)
    requires r <= |b|
    ensures FindMarker(b[r..], f).None? <==> FindMarker(b, r + f).None?
    ensures FindMarker(b[r..], f).Some? ==> FindMarker(b, r + f).value == r + FindMarker(b[r..], f).value
    decreases |b| - r - f
  {
    if r + f + 7 <= |b| {
      MarkerShift(b, r, f);
      if !MarkerAt(b, r + f) {
        FindMarkerShift(b, r, f + 1);
      }
    }
  }

  // ---------------------------------------------------------------------
  // The start of a telegram

  /** `.index(b"/")` applied to the buffer from `from` on: the position of
      the first `/` there. */
  function SlashFrom(b: bytes, from: nat): (r: Option<nat>)
    decreases |b| - from
    ensures r.Some? ==> from <= r.value < |b| && b[r.value] == Slash
  {
    if from >= |b| then None
    else if b[from] == Slash then Some(from)
    else SlashFrom(b, from + 1)
  }

  /** The search for `/` skips only bytes that are not `/`. */
  lemma {:induction false} SlashFromMeaning(b: bytes, from: nat)
    ensures var r := SlashFrom(b, from);
      && (r.Some? ==> forall p | from <= p < r.value :: b[p] != Slash)
      && (r.None? ==> forall p | from <= p < |b| :: b[p] != Slash)
    decreases |b| - from
  {
    if from < |b| && b[from] != Slash {
      SlashFromMeaning(b, from + 1);
    }
  }

  lemma {:induction false} NoSlashBetween(b: bytes, from: nat, to: nat)
    requires from <= to <= |b| && forall p | from <= p < to :: b[p] != Slash
    ensures SlashFrom(b, from) == SlashFrom(b, to)
    decreases |b| - from
  {
    if from < to {
      NoSlashBetween(b, from + 1, to);
    }
  }

  /** Searching for `/` after `r` bytes were sliced off finds the same one,
      `r` places earlier. */
  lemma {:induction false} SlashFromShift(b: bytes, r: nat, f: nat)
    requires r <= |b|
    ensures SlashFrom(b[r..], f).None? <==> SlashFrom(b, r + f).None?
    ensures SlashFrom(b[r..], f).Some? ==> SlashFrom(b, r + f).value == r + SlashFrom(b[r..], f).value
    decreases |b| - r - f
  {
    if r + f < |b| {
      assert b[r..][f] == b[r + f];
      if b[r + f] != Slash {
        SlashFromShift(b, r, f + 1);
      }
    }
  }

  /** `.index(b"/")` on the buffer sliced at `r` is the search from `r`. */
  lemma {:induction false} IndexOfFrom(b: bytes, r: nat)
    requires r <= |b|
    ensures IndexOf(b[r..], Slash).None? <==> SlashFrom(b, r).None?
    ensures IndexOf(b[r..], Slash).Some? ==> SlashFrom(b, r).value == r + IndexOf(b[r..], Slash).value
    decreases |b| - r
  {
    if r < |b| {
      assert b[r..][0] == b[r];
      if b[r] != Slash {
        assert b[r..][1..] == b[r + 1..];
        IndexOfFrom(b, r + 1);
      }
    }
  }

  // ---------------------------------------------------------------------
  // One turn of the loop

  /** What one turn of `feed`'s loop finds from `from` on: no `/` (the
      buffer is cleared), a `/` with no terminator after it (the buffer is
      kept from that `/`), or a cut from a `/` to the end of the first
      terminator after it. */
  datatype Step = Cleared | Kept(start: nat) | Cut(start: nat, end: nat)

  function NextCut(b: bytes, from: nat): (s: Step)
    ensures s.Kept? ==> from <= s.start < |b|
    ensures s.Cut? ==> from <= s.start && s.start + 7 <= s.end <= |b|
  {
    match SlashFrom(b, from)
    case None => Cleared
    case Some(i) =>
      match FindMarker(b, i)
      case None => Kept(i)
      case Some(e) => Cut(i, e)
  }

  /** A step found in a buffer sliced at `r`, in the positions of the
      whole buffer. */
  function Moved(s: Step, r: nat): Step
  {
    match s
    case Cleared => Cleared
    case Kept(i) => Kept(r + i)
    case Cut(i, e) => Cut(r + i, r + e)
  }

  /** A kept buffer starts at a `/` and holds no terminator; a cut starts at
      a `/` and ends with a terminator; a cleared one held no `/`. */
  lemma NextMeaning(b: bytes, from: nat)
    ensures NextCut(b, from).Cleared? ==> forall p | from <= p < |b| :: b[p] != Slash
    ensures NextCut(b, from).Kept? ==>
      b[NextCut(b, from).start] == Slash && forall p | NextCut(b, from).start <= p :: !MarkerAt(b, p)
    ensures NextCut(b, from).Cut? ==>
      b[NextCut(b, from).start] == Slash && MarkerAt(b, NextCut(b, from).end - 7)
  {
    SlashFromMeaning(b, from);
    if SlashFrom(b, from).Some? {
      FindMarkerMeaning(b, SlashFrom(b, from).value);
    }
  }

  /** Slicing `r` bytes off the front moves the step by `r`. */
  lemma NextShift(b: bytes, r: nat, f: nat)
    requires r <= |b|
    ensures NextCut(b, r + f) == Moved(NextCut(b[r..], f), r)
  {
    SlashFromShift(b, r, f);
    if SlashFrom(b[r..], f).Some? {
      FindMarkerShift(b, r, SlashFrom(b[r..], f).value);
    }
  }

  /** Appending bytes changes no cut the buffer already holds; a kept or
      cleared buffer is searched again from where it was kept or from the
      new bytes. */
  lemma NextAppend(b1: bytes, b2: bytes, from: nat)
    requires from <= |b1|
    ensures NextCut(b1, from).Cleared? ==> NextCut(b1 + b2, from) == NextCut(b1 + b2, |b1|)
    ensures NextCut(b1, from).Kept? ==> NextCut(b1 + b2, from) == NextCut(b1 + b2, NextCut(b1, from).start)
    ensures NextCut(b1, from).Cut? ==> NextCut(b1 + b2, from) == NextCut(b1, from)
  {
    var b := b1 + b2;
    SlashFromMeaning(b1, from);
    match SlashFrom(b1, from)
    case None =>
      assert forall p | from <= p < |b1| :: b[p] == b1[p];
      NoSlashBetween(b, from, |b1|);
    case Some(i) =>
      assert forall p | from <= p < i :: b[p] == b1[p];
      NoSlashBetween(b, from, i);
      assert SlashFrom(b, i) == Some(i);
      if FindMarker(b1, i).Some? {
        FindMarkerAppend(b1, b2, i);
      }
  }

  // ---------------------------------------------------------------------
  // Cuts and candidates

  /** The cuts made in the buffer from `from` on, in stream order. */
  function CutsFrom(b: bytes, from: nat): seq<bytes>
    decreases |b| - from
  {
    match NextCut(b, from)
    case Cleared => []
    case Kept(_) => []
    case Cut(i, e) => [b[i..e]] + CutsFrom(b, e)
  }

  /** Where the buffer left behind starts: the end when no `/` is left;
      otherwise the first `/` after the last terminator. */
  function RestFrom(b: bytes, from: nat): (r: nat)
    decreases |b| - from
    ensures r <= |b|
  {
    match NextCut(b, from)
    case Cleared => |b|
    case Kept(i) => i
    case Cut(_, e) => RestFrom(b, e)
  }

  /** The cuts `feed` makes in a buffer. */
  function Cuts(b: bytes): seq<bytes>
  {
    CutsFrom(b, 0)
  }

  /** The buffer `feed` leaves behind. */
  function Residue(b: bytes): bytes
  {
    b[RestFrom(b, 0)..]
  }

  /** `tstring[rindex(b"/"):]`: a cut with everything before its last `/`
      dropped. */
  function Trimmed(cut: bytes): bytes
  {
    match LastIndexOf(cut, Slash)
    case None => cut
    case Some(i) => cut[i..]
  }

  /** What `P1Telegram` is handed: one `/` at the front and none after it,
      closed by a terminator. */
  predicate IsCandidate(c: bytes)
  {
    |c| >= 8 && c[0] == Slash && Slash !in c[1..] && MarkerAt(c, |c| - 7)
  }

  /** What one cut yields once trimmed: nothing when it holds a stray `!`,
      nothing when building the telegram raises, otherwise the telegram. */
  function Yield<T>(build: bytes -> Result<T>, cut: bytes): seq<T>
  {
    var c := Trimmed(cut);
    if Count(c, Bang) > 1 then []
    else match build(c)
      case Ok(t) => [t]
      case Err(_) => []
  }

  function YieldAll<T>(build: bytes -> Result<T>, cs: seq<bytes>): seq<T>
  {
    if cs == [] then [] else Yield(build, cs[0]) + YieldAll(build, cs[1..])
  }

  // ---------------------------------------------------------------------
  // The parser

  class P1Parser {
    /** The bytes received and not yet part of a telegram. */
    var buffer: bytes

    constructor()
      ensures buffer == []
    {
      buffer := [];
    }

    /** `feed`: the telegrams completed by `input`, in stream order. */
    method Feed(input: bytes) returns (found: seq<Telegram>)
      modifies this
      ensures found == YieldAll(FromBytes, Cuts(old(buffer) + input))
      ensures buffer == Residue(old(buffer) + input)
    {
      buffer := buffer + input;
      found := [];
      ghost var start := buffer;
      while true
        invariant found + YieldAll(FromBytes, Cuts(buffer)) == YieldAll(FromBytes, Cuts(start))
        invariant Residue(buffer) == Residue(start)
        decreases |buffer|
      {
        var index := IndexOf(buffer, Slash);
        if index.None? {
          NoSlashCleared(buffer);
          buffer := [];
          break;
        }
        FromFirstSlash(buffer, index.value);
        buffer := buffer[index.value..];
        var m := FindMarker(buffer, 0);
        if m.None? {
          NoMarkerKept(buffer);
          break;
        }
        MarkerCut(buffer, m.value);
        MarkerResidue(buffer, m.value);
        var cut := buffer[..m.value];
        buffer := buffer[m.value..];
        YieldAllCons(FromBytes, cut, Cuts(buffer));
        ghost var rest := YieldAll(FromBytes, Cuts(buffer));
        var taken := Take(cut);
        AppendAssoc(found, taken, rest);
        found := found + taken;
      }
    }

    /** The body of the loop in `feed` for one cut: drop what precedes its
        last `/`, refuse it when it holds more than one `!`, and keep the
        telegram built from it unless that raises. */
    static method Take(cut: bytes) returns (taken: seq<Telegram>)
      requires |cut| > 0 && cut[0] == Slash
      ensures taken == Yield(FromBytes, cut)
    {
      var tstring := cut;
      var last := LastIndexOf(tstring, Slash);
      if last.value != 0 {
        tstring := tstring[last.value..];
      }
      assert tstring == Trimmed(cut);
      if Count(tstring, Bang) > 1 {
        return [];
      }
      var telegram := New(tstring);
      if telegram.Ok? {
        taken := [telegram.value];
      } else {
        taken := [];
      }
    }

    /** `len(parser)`, which `P1Parser` does not define: the length of the
        residual buffer. */
    function Pending(): nat
      reads this
    {
      |buffer|
    }
  }

  // ---------------------------------------------------------------------
  // Properties

  /** A buffer without `/` is cut nowhere and cleared. */
  lemma NoSlashCleared(b: bytes)
    requires Slash !in b
    ensures Cuts(b) == [] && Residue(b) == []
  {
    IndexOfFrom(b, 0);
    assert b[0..] == b;
  }

  /** The buffer is cut and left behind as from its first `/`. */
  lemma FromFirstSlash(b: bytes, k: nat)
    requires IndexOf(b, Slash) == Some(k)
    ensures Cuts(b) == Cuts(b[k..]) && Residue(b) == Residue(b[k..])
  {
    FirstSlashStep(b, k);
    CutsShift(b, k, 0);
    ResidueShift(b, k);
  }

  lemma FirstSlashStep(b: bytes, k: nat)
    requires IndexOf(b, Slash) == Some(k)
    ensures k <= |b| && CutsFrom(b, 0) == CutsFrom(b, k) && RestFrom(b, 0) == RestFrom(b, k)
  {
    IndexOfFrom(b, 0);
    assert b[0..] == b;
    assert SlashFrom(b, k) == Some(k);
    assert NextCut(b, 0) == NextCut(b, k);
  }

  /** Where the cutting from `k` on leaves off, slicing at `k` leaves the
      same bytes behind. */
  lemma ResidueShift(b: bytes, k: nat)
    requires k <= |b| && RestFrom(b, 0) == RestFrom(b, k)
    ensures Residue(b) == Residue(b[k..])
  {
    RestShift(b, k, 0);
    var x := b[k..];
    assert x[RestFrom(x, 0)..] == b[RestFrom(b, 0)..];
  }

  /** A buffer from a `/` with no terminator is kept whole. */
  lemma NoMarkerKept(b: bytes)
    requires |b| > 0 && b[0] == Slash && FindMarker(b, 0).None?
    ensures Cuts(b) == [] && Residue(b) == b
  {
    assert NextCut(b, 0) == Kept(0);
    assert b[0..] == b;
  }

  /** A buffer from a `/` is cut at the end of its first terminator. */
  lemma MarkerCut(b: bytes, m: nat)
    requires |b| > 0 && b[0] == Slash && FindMarker(b, 0) == Some(m)
    ensures Cuts(b) == [b[..m]] + Cuts(b[m..])
  {
    MarkerStep(b, m);
    CutsShift(b, m, 0);
  }

  /** ... and what it leaves behind is what the rest leaves behind. */
  lemma MarkerResidue(b: bytes, m: nat)
    requires |b| > 0 && b[0] == Slash && FindMarker(b, 0) == Some(m)
    ensures Residue(b) == Residue(b[m..])
  {
    MarkerStep(b, m);
    ResidueShift(b, m);
  }

  lemma MarkerStep(b: bytes, m: nat)
    requires |b| > 0 && b[0] == Slash && FindMarker(b, 0) == Some(m)
    ensures m <= |b| && CutsFrom(b, 0) == [b[..m]] + CutsFrom(b, m) && RestFrom(b, 0) == RestFrom(b, m)
  {
    assert NextCut(b, 0) == Cut(0, m);
    assert b[0..m] == b[..m];
  }

  lemma AppendAssoc<T>(a: seq<T>, b: seq<T>, c: seq<T>)
    ensures (a + b) + c == a + (b + c)
  {
  }

  /** One cut more in front yields what it yields in front. */
  lemma YieldAllCons<T>(build: bytes -> Result<T>, c: bytes, cs: seq<bytes>)
    ensures YieldAll(build, [c] + cs) == Yield(build, c) + YieldAll(build, cs)
  {
    assert ([c] + cs)[1..] == cs;
  }

  /** A cut yields `t` when, trimmed, it holds at most one `!` and builds
      `t`. */
  ghost predicate Yields<T>(build: bytes -> Result<T>, cut: bytes, t: T)
  {
    Count(Trimmed(cut), Bang) <= 1 && build(Trimmed(cut)) == Ok(t)
  }

  lemma YieldMember<T>(build: bytes -> Result<T>, cut: bytes, t: T)
    ensures t in Yield(build, cut) <==> Yields(build, cut, t)
  {
  }

  /** The telegrams are those of the trimmed cuts without a stray `!` that
      build, each once per such cut and in stream order. */
  lemma {:induction false} YieldAllMembers<T>(build: bytes -> Result<T>, cs: seq<bytes>, t: T)
    ensures t in YieldAll(build, cs) <==> exists i | 0 <= i < |cs| :: Yields(build, cs[i], t)
  {
    if cs != [] {
      YieldAllMembers(build, cs[1..], t);
      YieldMember(build, cs[0], t);
      if exists i | 0 <= i < |cs[1..]| :: Yields(build, cs[1..][i], t) {
        var i :| 0 <= i < |cs[1..]| && Yields(build, cs[1..][i], t);
        assert cs[i + 1] == cs[1..][i];
      }
      if exists i | 0 <= i < |cs| :: Yields(build, cs[i], t) {
        var i :| 0 <= i < |cs| && Yields(build, cs[i], t);
        if i > 0 {
          assert cs[1..][i - 1] == cs[i];
        }
      }
    }
  }

  /** What `feed` leaves behind starts at a `/`, or is the end of the
      buffer, and the bytes from there on hold no terminator; with no `/`
      from `from` on it is the end. */
  lemma {:induction false} RestFromShape(b: bytes, from: nat)
    ensures var r := RestFrom(b, from);
      && (r == |b| || b[r] == Slash)
      && (forall p | r <= p :: !MarkerAt(b, p))
      && ((forall p | from <= p < |b| :: b[p] != Slash) ==> r == |b|)
    decreases |b| - from
  {
    NextMeaning(b, from);
    match NextCut(b, from)
    case Cleared =>
    case Kept(i) =>
    case Cut(i, e) =>
      RestFromShape(b, e);
  }

  /** What `feed` leaves behind is what the stream ends with; it is empty
      when the stream holds no `/`, and otherwise starts with `/`; and it
      holds no terminator. */
  lemma ResidueShape(b: bytes)
    ensures |Residue(b)| <= |b| && Residue(b) == b[|b| - |Residue(b)|..]
    ensures Residue(b) == [] || Residue(b)[0] == Slash
    ensures forall p :: !MarkerAt(Residue(b), p)
    ensures Slash !in b ==> Residue(b) == []
  {
    var r := RestFrom(b, 0);
    RestFromShape(b, 0);
    forall p ensures !MarkerAt(Residue(b), p) {
      MarkerShift(b, r, p);
    }
  }

  /** Every cut trims to a candidate: one `/` at the front, no other `/`,
      and `\r\n!` and four hex digits at the end. */
  lemma {:induction false} CutsFromShape(b: bytes, from: nat)
    ensures forall k | 0 <= k < |CutsFrom(b, from)| :: IsCandidate(Trimmed(CutsFrom(b, from)[k]))
    decreases |b| - from
  {
    match NextCut(b, from)
    case Cleared =>
    case Kept(_) =>
    case Cut(i, e) =>
      NextMeaning(b, from);
      CutShape(b, i, e);
      CutsFromShape(b, e);
  }

  lemma CutsShape(b: bytes)
    ensures forall k | 0 <= k < |Cuts(b)| :: IsCandidate(Trimmed(Cuts(b)[k]))
  {
    CutsFromShape(b, 0);
  }

  /** A cut from a `/` to the end of a terminator trims to a candidate. */
  lemma CutShape(b: bytes, i: nat, e: nat)
    requires i < |b| && b[i] == Slash && i + 7 <= e <= |b| && MarkerAt(b, e - 7)
    ensures IsCandidate(Trimmed(b[i..e]))
  {
    var cut := b[i..e];
    assert e - 7 != i;
    assert cut[|cut| - 7..] == b[e - 7..e];
    TrimmedShape(cut);
  }

  lemma TrimmedShape(cut: bytes)
    requires |cut| >= 8 && cut[0] == Slash && MarkerAt(cut, |cut| - 7)
    ensures IsCandidate(Trimmed(cut))
  {
    var n := |cut|;
    var i := LastIndexOf(cut, Slash).value;
    assert i < n - 7 by {
      assert cut[n - 7] != Slash && cut[n - 6] != Slash && cut[n - 5] != Slash;
      assert cut[n - 4] != Slash && cut[n - 3] != Slash && cut[n - 2] != Slash && cut[n - 1] != Slash;
    }
    var c := cut[i..];
    assert c[1..] == cut[i + 1..];
    assert c[|c| - 7..] == cut[n - 7..];
  }

  /** Slicing bytes off the front of the buffer changes neither the cuts
      nor, up to the slice, where the buffer left behind starts. */
  lemma {:induction false} CutsShift(b: bytes, r: nat, f: nat)
    requires r <= |b|
    ensures CutsFrom(b[r..], f) == CutsFrom(b, r + f)
    decreases |b| - r - f
  {
    NextShift(b, r, f);
    match NextCut(b[r..], f)
    case Cleared =>
    case Kept(_) =>
    case Cut(i, e) =>
      var x := b[r..];
      CutsShift(b, r, e);
      CutStep(x, f, i, e);
      CutStep(b, r + f, r + i, r + e);
      SliceShift(b, r, i, e);
  }

  lemma CutStep(b: bytes, from: nat, i: nat, e: nat)
    requires NextCut(b, from) == Cut(i, e)
    ensures i <= e <= |b| && CutsFrom(b, from) == [b[i..e]] + CutsFrom(b, e)
  {
  }

  lemma SliceShift(b: bytes, r: nat, i: nat, e: nat)
    requires r + i <= r + e <= |b|
    ensures b[r..][i..e] == b[r + i..r + e]
  {
  }


  lemma {:induction false} RestShift(b: bytes, r: nat, f: nat)
    requires r <= |b|
    ensures RestFrom(b, r + f) == r + RestFrom(b[r..], f)
    decreases |b| - r - f
  {
    NextShift(b, r, f);
    match NextCut(b[r..], f)
    case Cleared =>
    case Kept(_) =>
    case Cut(i, e) =>
      assert RestFrom(b[r..], f) == RestFrom(b[r..], e);
      assert RestFrom(b, r + f) == RestFrom(b, r + e);
      RestShift(b, r, e);
  }

  /** Bytes appended to the buffer leave the cuts made before them in
      place; cutting goes on from where the buffer left behind starts. */
  lemma {:induction false} PiecesFrom(b1: bytes, b2: bytes, from: nat)
    requires from <= |b1|
    ensures CutsFrom(b1 + b2, from) == CutsFrom(b1, from) + CutsFrom(b1 + b2, RestFrom(b1, from))
    decreases |b1| - from
  {
    NextAppend(b1, b2, from);
    match NextCut(b1, from)
    case Cleared =>
    case Kept(_) =>
    case Cut(i, e) =>
      assert (b1 + b2)[i..e] == b1[i..e];
      PiecesFrom(b1, b2, e);
  }

  lemma {:induction false} RestPiecesFrom(b1: bytes, b2: bytes, from: nat)
    requires from <= |b1|
    ensures RestFrom(b1 + b2, from) == RestFrom(b1 + b2, RestFrom(b1, from))
    decreases |b1| - from
  {
    NextAppend(b1, b2, from);
    match NextCut(b1, from)
    case Cleared =>
    case Kept(_) =>
    case Cut(i, e) =>
      RestPiecesFrom(b1, b2, e);
  }

  lemma ResidueAppend(b1: bytes, b2: bytes)
    ensures Residue(b1) + b2 == (b1 + b2)[RestFrom(b1, 0)..]
  {
  }

  /** Feeding a stream in two pieces gives the same telegrams and leaves
      the same buffer as feeding it at once. */
  lemma FeedInPieces(b1: bytes, b2: bytes)
    ensures Cuts(b1 + b2) == Cuts(b1) + Cuts(Residue(b1) + b2)
    ensures Residue(b1 + b2) == Residue(Residue(b1) + b2)
  {
    CutsInPieces(b1, b2);
    ResidueInPieces(b1, b2);
  }

  lemma CutsInPieces(b1: bytes, b2: bytes)
    ensures Cuts(b1 + b2) == Cuts(b1) + Cuts(Residue(b1) + b2)
  {
    var r := RestFrom(b1, 0);
    PiecesFrom(b1, b2, 0);
    ResidueAppend(b1, b2);
    CutsShift(b1 + b2, r, 0);
  }

  lemma ResidueInPieces(b1: bytes, b2: bytes)
    ensures Residue(b1 + b2) == Residue(Residue(b1) + b2)
  {
    RestPiecesFrom(b1, b2, 0);
    ResidueShift(b1 + b2, RestFrom(b1, 0));
    ResidueAppend(b1, b2);
  }

  /** As written, every candidate fails `P1Telegram`'s checksum, so `feed`
      never returns a telegram. */
  lemma {:induction false} FeedAsWrittenFindsNothing(cs: seq<bytes>)
    requires forall i | 0 <= i < |cs| :: IsCandidate(Trimmed(cs[i]))
    ensures YieldAll(FromBytesAsWritten, cs) == []
  {
    if cs != [] {
      var c := Trimmed(cs[0]);
      var n := |c|;
      var hex := c[n - 4..];
      assert c == c[..n - 7] + [CR, LF, Bang] + hex;
      CandidateRefusedAsWritten(c[..n - 7], hex);
      FeedAsWrittenFindsNothing(cs[1..]);
    }
  }

  /** As written, no stream yields a telegram. */
  lemma StreamAsWrittenFindsNothing(b: bytes)
    ensures YieldAll(FromBytesAsWritten, Cuts(b)) == []
  {
    CutsShape(b);
    FeedAsWrittenFindsNothing(Cuts(b));
  }

  /** The bytes a meter sends before the checksum digits: `/`, lines
      without `/` or `!`, and `\r\n!`. */
  predicate IsFrameData(data: bytes)
  {
    && |data| >= 4 && data[0] == Slash && Slash !in data[1..]
    && data[|data| - 3] == CR && data[|data| - 2] == LF && data[|data| - 1] == Bang
    && Bang !in data[..|data| - 1]
  }

  /** With the checksum read after the last `!`, a frame followed by the
      CRC of its bytes as four hex digits, preceded by noise without `/`,
      is one cut; it yields the telegram the frame builds (when its lines
      decode) and leaves nothing behind. */
  lemma FrameFound(junk: bytes, data: bytes)
    requires Slash !in junk && IsFrameData(data)
    ensures var frame := data + HexBytes(CrcValue(data));
      && Cuts(junk + frame) == [frame]
      && Residue(junk + frame) == []
      && YieldAll(FromBytes, Cuts(junk + frame)) ==
           (if Built(frame, Ok(()), ParseObject).Ok? then [Built(frame, Ok(()), ParseObject).value] else [])
  {
    var hex := HexBytes(CrcValue(data));
    var frame := data + hex;
    FrameCut(junk, data, hex);
    FrameOneBang(data, hex);
    FrameYield(frame);
    FrameBuiltWhole(data);
  }

  lemma FrameBuiltWhole(data: bytes)
    requires |data| > 0 && data[|data| - 1] == Bang
    ensures var frame := data + HexBytes(CrcValue(data));
      FromBytes(frame) == Built(frame, Ok(()), ParseObject)
  {
    var none: bytes := [];
    FrameBuilt(data, none);
    assert data + HexBytes(CrcValue(data)) + none == data + HexBytes(CrcValue(data));
  }

  lemma FrameYield(frame: bytes)
    requires Trimmed(frame) == frame && Count(frame, Bang) == 1
    ensures YieldAll(FromBytes, [frame]) ==
      (if FromBytes(frame).Ok? then [FromBytes(frame).value] else [])
  {
    var none: seq<bytes> := [];
    YieldAllCons(FromBytes, frame, none);
    assert [frame] + none == [frame];
  }

  /** The frame is one cut, made at its own terminator, and trimming leaves
      it whole. */
  lemma FrameCut(junk: bytes, data: bytes, hex: bytes)
    requires Slash !in junk && IsFrameData(data)
    requires |hex| == 4 && forall k | 0 <= k < 4 :: IsHexByte(hex[k])
    ensures Cuts(junk + (data + hex)) == [data + hex] && Residue(junk + (data + hex)) == []
    ensures Trimmed(data + hex) == data + hex
  {
    var frame := data + hex;
    var b := junk + frame;
    var j, n := |junk|, |b|;
    FrameStep(junk, data, hex);
    assert b[j..n] == frame;
    assert NextCut(b, n) == Cleared;
    assert CutsFrom(b, n) == [] && RestFrom(b, n) == n;
    assert CutsFrom(b, 0) == [b[j..n]] + CutsFrom(b, n);
    assert RestFrom(b, 0) == RestFrom(b, n);
    forall k | 0 <= k < 4 ensures hex[k] != Slash {
      assert IsHexByte(hex[k]);
    }
    assert frame[1..] == data[1..] + hex;
    LastIndex(frame, 0);
    assert frame[0..] == frame;
  }

  lemma FrameStep(junk: bytes, data: bytes, hex: bytes)
    requires Slash !in junk && IsFrameData(data)
    requires |hex| == 4 && forall k | 0 <= k < 4 :: IsHexByte(hex[k])
    ensures NextCut(junk + (data + hex), 0) == Cut(|junk|, |junk + (data + hex)|)
  {
    var frame := data + hex;
    var b := junk + frame;
    var j, n := |junk|, |b|;
    assert forall p | 0 <= p < j :: b[p] == junk[p];
    NoSlashBetween(b, 0, j);
    assert b[j] == Slash;
    assert b[n - 4..] == hex;
    assert MarkerAt(b, n - 7);
    forall p | j <= p < n - 7 ensures !MarkerAt(b, p) {
      assert b[p + 2] == data[..|data| - 1][p + 2 - j];
    }
    FirstMarker(b, j, n - 7);
  }

  /** The last `/` is found where it is. */
  lemma LastIndex(s: bytes, k: nat)
    requires k < |s| && s[k] == Slash && Slash !in s[k + 1..]
    ensures LastIndexOf(s, Slash) == Some(k)
  {
  }

  /** The frame holds one `!`: the one before its digits. */
  lemma FrameOneBang(data: bytes, hex: bytes)
    requires |data| > 0 && data[|data| - 1] == Bang && Bang !in data[..|data| - 1]
    requires forall k | 0 <= k < |hex| :: IsHexByte(hex[k])
    ensures Count(data + hex, Bang) == 1
  {
    assert Bang !in hex by {
      forall k | 0 <= k < |hex| ensures hex[k] != Bang {
        assert IsHexByte(hex[k]);
      }
    }
    var pre := data[..|data| - 1];
    OneBang(pre, hex);
    assert pre + [Bang] == data;
  }

  lemma OneBang(pre: bytes, post: bytes)
    requires Bang !in pre && Bang !in post
    ensures Count(pre + [Bang] + post, Bang) == 1
  {
    assert Count([Bang], Bang) == 1 by {
      assert [Bang][1..] == [];
    }
    CountAppend([Bang], post, Bang);
    CountAppend(pre, [Bang] + post, Bang);
    assert pre + [Bang] + post == pre + ([Bang] + post);
  }
}
