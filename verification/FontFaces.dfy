/** The open and close protocol of X-TrueType's xttfuncs.c: engine, faces and fonts, with every library call free to fail. */
module FontFaces {

  /** An entry of faceTable; `flag` is -1 while the face is closed. */
  datatype FaceInfo = FaceInfo(fontName: string, ttcno: int, refCount: int, flag: int, face: nat)

  /** What a font is asked for. */
  datatype Hints = Hints(fontName: string, ttFontName: string, ttcno: int)

  /** What the library calls of one FreeType_OpenFont answer: true is success. */
  datatype Answers = Answers(engine: bool, openFace: bool, properties: bool, numFaces: int, openCollection: bool, memory: bool,
                             properties2: bool, charMaps: bool, glyph: bool, hasBitmaps: bool, sbitImage: bool,
                             converter: bool, instance: bool, resolutions: bool, charSize: bool, cache: bool)

  function Sum(table: seq<FaceInfo>): int {
    if table == [] then 0 else Sum(table[..|table| - 1]) + table[|table| - 1].refCount
  }

  lemma {:induction false} SumUpdate(table: seq<FaceInfo>, i: nat, f: FaceInfo)
    requires i < |table|
    ensures Sum(table[i := f]) == Sum(table) - table[i].refCount + f.refCount
  {
    var n := |table| - 1;
    if i == n {
      assert table[i := f][..n] == table[..n];
    } else {
      assert table[i := f][..n] == table[..n][i := f];
      SumUpdate(table[..n], i, f);
    }
  }

  lemma {:induction false} SumAppend(table: seq<FaceInfo>, f: FaceInfo)
    ensures Sum(table + [f]) == Sum(table) + f.refCount
  {
    assert (table + [f])[..|table|] == table;
  }

  /** Keys are unique, and a face is open exactly while its entry is in use. */
  predicate TableOk(table: seq<FaceInfo>, faces: set<nat>) {
    && (forall i, j :: 0 <= i < j < |table| ==> !(table[i].fontName == table[j].fontName && table[i].ttcno == table[j].ttcno))
    && (forall i, j :: 0 <= i < j < |table| && table[i].refCount > 0 && table[j].refCount > 0 ==> table[i].face != table[j].face)
    && (forall i :: 0 <= i < |table| ==>
          table[i].refCount >= 0 && (table[i].flag == 0 <==> table[i].refCount > 0) && (table[i].refCount > 0 <==> table[i].face in faces))
  }

  /** All faces ever opened have lower numbers. */
  predicate FacesBelow(table: seq<FaceInfo>, faces: set<nat>, next: nat) {
    (forall f :: f in faces ==> f < next) && forall i :: 0 <= i < |table| ==> table[i].face < next
  }

  /** n fonts are open: each is a use of its entry, and the uses of all entries are as many. */
  ghost predicate Counts(table: seq<FaceInfo>, live: multiset<int>, n: int) {
    && n == Sum(table) == |live|
    && (forall i :: 0 <= i < |table| ==> table[i].refCount == live[i])
    && forall i :: i in live ==> 0 <= i < |table|
  }

  /** The entry with one use less. */
  function LessUsed(e: FaceInfo): FaceInfo {
    e.(refCount := e.refCount - 1, flag := if e.refCount == 1 then -1 else e.flag)
  }

  lemma {:induction false} UseAdded(before: seq<FaceInfo>, after: seq<FaceInfo>, h: Hints, fid: int, live: multiset<int>, n: int)
    requires Counts(before, live, n) && UsedOnceMore(before, after, h, fid)
    ensures Counts(after, live + multiset{fid}, n + 1)
  {
    if fid < |before| { SumUpdate(before, fid, after[fid]); } else { SumAppend(before, after[fid]); }
  }

  lemma {:induction false} UseTaken(table: seq<FaceInfo>, live: multiset<int>, n: int, fid: nat)
    requires Counts(table, live, n) && fid in live
    ensures fid < |table| && table[fid].refCount > 0 && Counts(table[fid := LessUsed(table[fid])], live - multiset{fid}, n - 1)
  {
    SumUpdate(table, fid, LessUsed(table[fid]));
  }

  lemma {:induction false} AddedAndTaken(before: seq<FaceInfo>, after: seq<FaceInfo>, h: Hints, fid: int, live: multiset<int>, n: int)
    requires Counts(before, live, n) && UsedOnceMore(before, after, h, fid)
    ensures after[fid].refCount > 0 && Counts(after[fid := LessUsed(after[fid])], live, n) && SameUses(before, after[fid := LessUsed(after[fid])])
  {
    hide Counts, SameUses, UsedOnceMore, LessUsed;
    UseAdded(before, after, h, fid, live, n);
    assert live + multiset{fid} - multiset{fid} == live;
    UseTaken(after, live + multiset{fid}, n + 1, fid);
    UseUndone(before, after, h, fid);
  }

  lemma {:induction false} UseUndone(before: seq<FaceInfo>, after: seq<FaceInfo>, h: Hints, fid: int)
    requires UsedOnceMore(before, after, h, fid)
    ensures 0 <= fid < |after| && SameUses(before, after[fid := LessUsed(after[fid])])
  {
  }

  /** A font that has been opened: its entry. */
  class Font {
    var fid: int
    constructor ()
      ensures fid == -1
    {
      fid := -1;
    }
  }

  class Renderer {
    var initCount: int               // FreeType_InitCount
    var engineOpen: bool
    var faceTable: seq<FaceInfo>
    var stale: bool                  // faceTable points to memory that xrealloc has given back
    var faces: set<nat>              // the faces that are open in the library
    var nextFace: nat
    var glyphs: int                  // glyphs, instances, caches and code converters in use
    var instances: int
    var caches: int
    var converters: int
    ghost var live: multiset<int>    // the entries of the fonts that are open

    /** The counts agree: fonts, uses of faces, uses of the engine. */
    ghost predicate Valid()
      reads this
    {
      && Counts(faceTable, live, initCount) && (engineOpen <==> initCount > 0)
      && TableOk(faceTable, faces) && FacesBelow(faceTable, faces, nextFace)
      && instances == caches == initCount
    }

    constructor ()
      ensures Valid() && live == multiset{} && faceTable == [] && !stale && faces == {} && glyphs == converters == 0
    {
      initCount, engineOpen, faceTable, stale, faces, nextFace := 0, false, [], false, {}, 0;
      glyphs, instances, caches, converters, live := 0, 0, 0, 0, multiset{};
    }

    /** FreeType_Init */
    method Init(a: Answers) returns (r: int)
      requires initCount >= 0 && (engineOpen <==> initCount > 0)
      modifies `initCount, `engineOpen
      ensures r == if old(initCount) == 0 && !a.engine then -1 else 0
      ensures initCount == old(initCount) + (if r == 0 then 1 else 0) && (engineOpen <==> initCount > 0)
    {
      if initCount == 0 {
        if !a.engine { return -1; }
        engineOpen := true;
      }
      initCount := initCount + 1;
      r := 0;
    }

    /** FreeType_Deinit */
    method Deinit() returns (r: int)
      requires engineOpen <==> initCount > 0
      modifies `initCount, `engineOpen
      ensures r == if old(initCount) <= 0 then -1 else 0
      ensures initCount == (if r == 0 then old(initCount) - 1 else old(initCount)) && (engineOpen <==> initCount > 0)
    {
      if initCount <= 0 { return -1; }
      initCount := initCount - 1;
      if initCount == 0 { engineOpen := false; }
      r := 0;
    }

    method CloseHandle(face: nat)
      modifies `faces
      ensures faces == old(faces) - {face}
    {
      faces := faces - {face};
    }

    /** The entry of a font name and collection number. */
    method FindEntry(h: Hints) returns (i: nat)
      ensures i <= |faceTable| && (i < |faceTable| ==> faceTable[i].fontName == h.fontName && faceTable[i].ttcno == h.ttcno)
      ensures forall j :: 0 <= j < i ==> !(faceTable[j].fontName == h.fontName && faceTable[j].ttcno == h.ttcno)
    {
      i := 0;
      while i < |faceTable| && !(faceTable[i].fontName == h.fontName && faceTable[i].ttcno == h.ttcno)
        invariant 0 <= i <= |faceTable|
        invariant forall j :: 0 <= j < i ==> !(faceTable[j].fontName == h.fontName && faceTable[j].ttcno == h.ttcno)
      {
        i := i + 1;
      }
    }

    /** The calls that prepare a face for use; the face is closed when one of them fails. */
    method Prepare(face: nat, a: Answers) returns (ok: bool)
      modifies `faces, `glyphs
      ensures ok == Prepares(a) && faces == (if ok then old(faces) else old(faces) - {face})
      ensures glyphs == old(glyphs) + if a.properties2 && a.charMaps && a.glyph then 1 else 0
    {
      ok := false;
      if !a.properties2 { CloseHandle(face); return; }
      if !a.charMaps { CloseHandle(face); return; }
      if !a.glyph { CloseHandle(face); return; }
      glyphs := glyphs + 1;
      if a.hasBitmaps && !a.sbitImage { CloseHandle(face); return; }
      ok := true;
    }

    /** The face of the file, or of one member of its collection. */
    method OpenHandle(h: Hints, a: Answers) returns (ok: bool, face: nat)
      requires forall f :: f in faces ==> f < nextFace
      modifies `faces, `nextFace
      ensures ok == Opens(h, a) && old(nextFace) <= nextFace && (forall f :: f in faces ==> f < nextFace)
      ensures if ok then face >= old(nextFace) && faces == old(faces) + {face} else faces == old(faces)
    {
      ok, face := false, nextFace;
      if !a.openFace { return; }
      faces, nextFace := faces + {face}, nextFace + 1;
      if !a.properties { CloseHandle(face); return; }
      if h.ttcno != 0 {
        CloseHandle(face);
        if h.ttcno < 0 || h.ttcno >= a.numFaces { return; }
        if !a.openCollection { return; }
        face := nextFace;
        faces, nextFace := faces + {face}, nextFace + 1;
      }
      ok := true;
    }

    /** FreeType_OpenFace: one use more of the entry for this name and number, or nothing - but when no memory for a new
        entry is left the face stays open, and when a later call fails the table has been given back already. */
    method OpenFace(h: Hints, a: Answers) returns (fid: int)
      requires TableOk(faceTable, faces) && !stale && FacesBelow(faceTable, faces, nextFace)
      modifies `faceTable, `stale, `faces, `nextFace, `glyphs
      ensures TableOk(faceTable, faces) && FacesBelow(faceTable, faces, nextFace)
      ensures fid >= 0 <==> Gets(old(faceTable), h, a)
      ensures if fid >= 0 then UsedOnceMore(old(faceTable), faceTable, h, fid) else faceTable == old(faceTable)
      ensures fid < 0 && !LosesFace(old(faceTable), h, a) ==> faces == old(faces)
      ensures LosesFace(old(faceTable), h, a) ==> exists f :: f !in old(faces) && faces == old(faces) + {f}
      ensures stale <==> LosesTable(old(faceTable), h, a)
    {
      hide TableOk, FacesBelow, UsedOnceMore, Opens, Prepares;
      fid := -1;
      ghost var faces0, next0 := faces, nextFace;
      FacesLower(faceTable, faces, nextFace);
      var ok, face := OpenHandle(h, a);
      FacesHigher(faceTable, faces0, next0, faces, nextFace);
      if !ok { return; }
      var i := FindEntry(h);
      KnownEntry(faceTable, faces0, h, i);
      FaceAdded(faceTable, faces0, next0, face);
      if i < |faceTable| {
        fid := ReuseEntry(i, face, h, a, faces0);
        return;
      }
      if !a.memory { return; }
      stale := faceTable != [];
      ok := Prepare(face, a);
      if !ok {
        Withdrawn(faceTable, faces0, next0, face);
        FacesHigher(faceTable, faces0, next0, faces0, nextFace);
        return;
      }
      stale := false;
      EntryAdded(faceTable, faces0, faces, nextFace, face, h);
      faceTable := faceTable + [FaceInfo(h.fontName, h.ttcno, 1, 0, face)];
      fid := |faceTable| - 1;
    }

    /** The entry is found: a closed one is opened again with this face, otherwise this face is not needed. */
    method ReuseEntry(i: nat, face: nat, h: Hints, a: Answers, ghost faces0: set<nat>) returns (fid: int)
      requires i < |faceTable| && Matches(faceTable[i], h) && TableOk(faceTable, faces0) && FacesBelow(faceTable, faces, nextFace)
      requires faces == faces0 + {face} && face !in faces0 && forall j :: 0 <= j < |faceTable| ==> faceTable[j].face != face
      modifies `faceTable, `faces, `glyphs
      ensures TableOk(faceTable, faces) && FacesBelow(faceTable, faces, nextFace)
      ensures fid >= 0 <==> Prepares(a) || old(faceTable)[i].flag == 0
      ensures if fid >= 0 then UsedOnceMore(old(faceTable), faceTable, h, fid) else faceTable == old(faceTable) && faces == faces0
    {
      var e := faceTable[i];
      if e.flag != 0 {
        var ok := Prepare(face, a);
        if !ok { assert faces == faces0; return -1; }
        e := e.(face := face, ttcno := h.ttcno, flag := 0);
      } else {
        CloseHandle(face);
        assert faces == faces0;
      }
      faceTable := faceTable[i := e.(refCount := e.refCount + 1)];
      fid := i;
    }

    /** FreeType_CloseFace */
    method CloseFace(index: nat) returns (r: int)
      requires TableOk(faceTable, faces)
      modifies `faceTable, `faces, `glyphs
      ensures TableOk(faceTable, faces) && faces <= old(faces)
      ensures r == if index < |old(faceTable)| && old(faceTable)[index].refCount > 0 then 0 else -1
      ensures r != 0 ==> faceTable == old(faceTable) && faces == old(faces)
      ensures r == 0 ==>
                var e := old(faceTable)[index];
                faceTable == old(faceTable)[index := LessUsed(e)]
                && faces == if e.refCount == 1 then old(faces) - {e.face} else old(faces)
    {
      if index >= |faceTable| || faceTable[index].refCount <= 0 { return -1; }
      var e := faceTable[index];
      e := e.(refCount := e.refCount - 1);
      if e.refCount == 0 {
        glyphs := glyphs - 1;
        CloseHandle(e.face);
        e := e.(flag := -1);
      }
      faceTable := faceTable[index := e];
      r := 0;
    }

    /** FreeType_OpenFont: a failed call leaves every count as it was, but keeps the code converter exactly when one was found. */
    method OpenFont(ft: Font, h: Hints, a: Answers) returns (ok: bool)
      requires Valid() && !stale
      modifies this, ft
      ensures Valid() && (stale <==> (old(initCount) > 0 || a.engine) && LosesTable(old(faceTable), h, a))
      ensures ok <==> (old(initCount) > 0 || a.engine) && Gets(old(faceTable), h, a) && SetsUp(a)
      ensures ok ==> live == old(live) + multiset{ft.fid} && 0 <= ft.fid < |faceTable| && ft.fid == Slot(Keys(old(faceTable)), h)
      ensures Keys(faceTable) == if (old(initCount) > 0 || a.engine) && Gets(old(faceTable), h, a) then WithKey(Keys(old(faceTable)), h)
                                 else Keys(old(faceTable))
      ensures !ok ==> live == old(live) && initCount == old(initCount) && instances == old(instances) && caches == old(caches)
      ensures !ok ==> SameUses(old(faceTable), faceTable)
      ensures converters == old(converters) + if (old(initCount) > 0 || a.engine) && Gets(old(faceTable), h, a) && a.converter then 1 else 0
    {
      hide Counts, TableOk, FacesBelow, UsedOnceMore, SameUses, Sum, Opens, Prepares, Gets, Known, InUse, LosesFace, LosesTable, Keys, Slot, WithKey, SetsUp;
      SameUsesNone(faceTable);
      CountsPositive(faceTable, live, initCount);
      ok := false;
      var r := Init(a);
      if r < 0 { return; }
      ghost var before, beforeFaces := faceTable, faces;
      var fid := OpenFace(h, a);
      ft.fid := fid;
      if fid < 0 {
        r := Deinit();
        return;
      }
      UsedEntry(before, faceTable, h, fid);
      UsedSlot(before, beforeFaces, faceTable, h, fid);
      ok := UseFace(fid, before, h, a);
    }

    /** The rest of FreeType_OpenFont, once the face is there. */
    method UseFace(fid: nat, ghost before: seq<FaceInfo>, h: Hints, a: Answers) returns (ok: bool)
      requires Counts(before, live, initCount - 1) && instances == caches == initCount - 1 && (engineOpen <==> initCount > 0)
      requires TableOk(faceTable, faces) && UsedOnceMore(before, faceTable, h, fid) && FacesBelow(faceTable, faces, nextFace)
      modifies `initCount, `engineOpen, `faceTable, `faces, `glyphs, `converters, `instances, `caches, `live
      ensures Valid() && ok == SetsUp(a) && Keys(faceTable) == old(Keys(faceTable))
      ensures converters == old(converters) + if a.converter then 1 else 0
      ensures ok ==> live == old(live) + multiset{fid}
      ensures !ok ==> live == old(live) && initCount == old(initCount) - 1 && instances == old(instances) && caches == old(caches)
      ensures !ok ==> SameUses(before, faceTable)
    {
      hide Counts, TableOk, FacesBelow, UsedOnceMore, SameUses, Sum, Keys, SetsUp;
      ok := SetUp(a);
      if !ok {
        GiveBack(fid, before, h);
        return;
      }
      UseAdded(before, faceTable, h, fid, live, initCount - 1);
      CountsPositive(before, old(live), initCount - 1);
      live := live + multiset{fid};
    }

    /** Code converter, instance and cache; the instance is given back when something fails, the converter is not. */
    method SetUp(a: Answers) returns (ok: bool)
      modifies `converters, `instances, `caches
      ensures ok == SetsUp(a)
      ensures converters == old(converters) + if a.converter then 1 else 0
      ensures instances == old(instances) + (if ok then 1 else 0) && caches == old(caches) + if ok then 1 else 0
    {
      if !a.converter { return false; }
      converters := converters + 1;
      if !a.instance { return false; }
      instances := instances + 1;
      if !a.resolutions { instances := instances - 1; return false; }
      if !a.charSize { instances := instances - 1; return false; }
      if !a.cache { instances := instances - 1; return false; }
      caches := caches + 1;
      ok := true;
    }

    /** The label deinitQuit of FreeType_OpenFont. */
    method GiveBack(fid: nat, ghost before: seq<FaceInfo>, h: Hints)
      requires Counts(before, live, initCount - 1) && instances == caches == initCount - 1 && (engineOpen <==> initCount > 0)
      requires TableOk(faceTable, faces) && UsedOnceMore(before, faceTable, h, fid) && FacesBelow(faceTable, faces, nextFace)
      modifies `initCount, `engineOpen, `faceTable, `faces, `glyphs
      ensures Valid() && initCount == old(initCount) - 1 && SameUses(before, faceTable) && Keys(faceTable) == old(Keys(faceTable))
    {
      hide Counts, TableOk, UsedOnceMore, SameUses, Sum, Keys;
      ghost var during := faceTable;
      UsedEntry(before, faceTable, h, fid);
      AddedAndTaken(before, faceTable, h, fid, live, initCount - 1);
      CountsPositive(before, live, initCount - 1);
      var r := CloseFace(fid);
      SameKeys(during, fid);
      r := Deinit();
    }

    /** FreeType_CloseFont */
    method CloseFont(ft: Font)
      requires Valid() && ft.fid in live
      modifies this
      ensures Valid() && live == old(live) - multiset{ft.fid} && stale == old(stale)
      ensures converters == old(converters) - 1 && Keys(faceTable) == old(Keys(faceTable))
    {
      hide Counts, TableOk, Sum, Keys;
      ghost var before := faceTable;
      FidOk(faceTable, live, initCount, ft.fid);
      UseTaken(faceTable, live, initCount, ft.fid);
      CountsPositive(faceTable, live, initCount);
      instances := instances - 1;
      caches := caches - 1;
      var r := CloseFace(ft.fid);
      SameKeys(before, ft.fid);
      r := Deinit();
      converters := converters - 1;
      live := live - multiset{ft.fid};
    }
  }

  lemma {:induction false} FacesLower(table: seq<FaceInfo>, faces: set<nat>, next: nat)
    requires FacesBelow(table, faces, next)
    ensures forall f :: f in faces ==> f < next
  {
  }

  lemma {:induction false} FacesHigher(table: seq<FaceInfo>, faces: set<nat>, next: nat, faces1: set<nat>, next1: nat)
    requires FacesBelow(table, faces, next) && next <= next1 && forall f :: f in faces1 ==> f < next1
    ensures FacesBelow(table, faces1, next1)
  {
  }

  /** A new face is that of no entry. */
  lemma {:induction false} FaceAdded(table: seq<FaceInfo>, faces: set<nat>, next: nat, face: nat)
    requires FacesBelow(table, faces, next) && face >= next
    ensures face !in faces && forall i :: 0 <= i < |table| ==> table[i].face != face
    ensures TableOk(table, faces) <==> TableOk(table, faces + {face})
  {
  }

  lemma {:induction false} Withdrawn(table: seq<FaceInfo>, faces: set<nat>, next: nat, face: nat)
    requires FacesBelow(table, faces, next) && face >= next
    ensures faces + {face} - {face} == faces
  {
  }

  lemma {:induction false} KnownEntry(table: seq<FaceInfo>, faces: set<nat>, h: Hints, i: nat)
    requires TableOk(table, faces) && i <= |table| && (i < |table| ==> Matches(table[i], h))
    requires forall j :: 0 <= j < i ==> !Matches(table[j], h)
    ensures Known(table, h) <==> i < |table|
    ensures InUse(table, h) <==> i < |table| && table[i].flag == 0
  {
  }

  lemma {:induction false} EntryAdded(table: seq<FaceInfo>, faces0: set<nat>, faces: set<nat>, next: nat, face: nat, h: Hints)
    requires TableOk(table, faces0) && FacesBelow(table, faces, next) && faces == faces0 + {face} && face !in faces0
    requires (forall i :: 0 <= i < |table| ==> table[i].face != face) && !Known(table, h)
    ensures var after := table + [FaceInfo(h.fontName, h.ttcno, 1, 0, face)];
            TableOk(after, faces) && FacesBelow(after, faces, next) && UsedOnceMore(table, after, h, |table|)
  {
  }

  lemma {:induction false} SameUsesNone(table: seq<FaceInfo>)
    ensures SameUses(table, table)
  {
  }

  lemma {:induction false} UsedEntry(before: seq<FaceInfo>, after: seq<FaceInfo>, h: Hints, fid: int)
    requires UsedOnceMore(before, after, h, fid)
    ensures 0 <= fid < |after| && Matches(after[fid], h)
  {
  }

  lemma {:induction false} CountsPositive(table: seq<FaceInfo>, live: multiset<int>, n: int)
    requires Counts(table, live, n)
    ensures n >= 0 && (live != multiset{} ==> n > 0)
  {
  }

  lemma {:induction false} FidOk(table: seq<FaceInfo>, live: multiset<int>, n: int, fid: int)
    requires Counts(table, live, n) && fid in live
    ensures 0 <= fid < |table| && n > 0
  {
  }

  /** The table after a use has been added and taken back again: only entries that nobody uses may be new. */
  predicate SameUses(before: seq<FaceInfo>, after: seq<FaceInfo>) {
    && |before| <= |after|
    && (forall i :: 0 <= i < |before| ==>
          after[i].refCount == before[i].refCount && after[i].fontName == before[i].fontName && after[i].ttcno == before[i].ttcno)
    && forall i :: |before| <= i < |after| ==> after[i].refCount == 0
  }

  predicate Prepares(a: Answers) {
    a.properties2 && a.charMaps && a.glyph && (a.hasBitmaps ==> a.sbitImage)
  }

  predicate Opens(h: Hints, a: Answers) {
    a.openFace && a.properties && (h.ttcno != 0 ==> 0 <= h.ttcno < a.numFaces && a.openCollection)
  }

  predicate Matches(e: FaceInfo, h: Hints) {
    e.fontName == h.fontName && e.ttcno == h.ttcno
  }

  predicate Known(table: seq<FaceInfo>, h: Hints) {
    exists i :: 0 <= i < |table| && Matches(table[i], h)
  }

  predicate InUse(table: seq<FaceInfo>, h: Hints) {
    exists i :: 0 <= i < |table| && Matches(table[i], h) && table[i].flag == 0
  }

  /** The face can be used: an entry in use needs no preparation, a new one needs memory. */
  predicate Gets(table: seq<FaceInfo>, h: Hints, a: Answers) {
    Opens(h, a) && if Known(table, h) then Prepares(a) || InUse(table, h) else a.memory && Prepares(a)
  }

  predicate SetsUp(a: Answers) {
    a.converter && a.instance && a.resolutions && a.charSize && a.cache
  }

  predicate LosesFace(table: seq<FaceInfo>, h: Hints, a: Answers) {
    Opens(h, a) && !Known(table, h) && !a.memory
  }

  predicate LosesTable(table: seq<FaceInfo>, h: Hints, a: Answers) {
    Opens(h, a) && !Known(table, h) && a.memory && !Prepares(a) && table != []
  }

  /** The entry of the font has one use more and is open; nothing else has changed. */
  predicate UsedOnceMore(before: seq<FaceInfo>, after: seq<FaceInfo>, h: Hints, fid: int) {
    && 0 <= fid < |after| && Matches(after[fid], h) && after[fid].flag == 0
    && if fid < |before| then Matches(before[fid], h) && after == before[fid := after[fid]] && after[fid].refCount == before[fid].refCount + 1
       else !Known(before, h) && fid == |before| && after == before + [after[fid]] && after[fid].refCount == 1
  }

  // ----- every sequence of opens and closes -----

  datatype Request = Open(hints: Hints, answers: Answers) | Close(which: nat)

  /** The keys of the table, the entries of the open fonts in the order of opening, the code converters that failed calls
      have kept, and whether the table is lost. */
  datatype Books = Books(keys: seq<(string, int)>, fids: seq<int>, kept: nat, gone: bool)

  function Keys(table: seq<FaceInfo>): (keys: seq<(string, int)>)
    ensures |keys| == |table|
  {
    seq(|table|, i requires 0 <= i < |table| => (table[i].fontName, table[i].ttcno))
  }

  /** The entry for this name and number, or the end of the table. */
  function Slot(keys: seq<(string, int)>, h: Hints): (i: nat)
    ensures i <= |keys|
    ensures i < |keys| ==> keys[i] == (h.fontName, h.ttcno)
    ensures forall j :: 0 <= j < i ==> keys[j] != (h.fontName, h.ttcno)
  {
    if keys == [] || keys[0] == (h.fontName, h.ttcno) then 0 else 1 + Slot(keys[1..], h)
  }

  function WithKey(keys: seq<(string, int)>, h: Hints): seq<(string, int)> {
    if Slot(keys, h) < |keys| then keys else keys + [(h.fontName, h.ttcno)]
  }

  predicate CanGet(b: Books, h: Hints, a: Answers) {
    Opens(h, a) && if Slot(b.keys, h) < |b.keys| then Prepares(a) || Slot(b.keys, h) in b.fids else a.memory && Prepares(a)
  }

  /** What a request does to the books.  An entry stays when its last font is closed, and when the font that made it
      could not be set up. */
  function Booked(b: Books, q: Request): Books {
    match q
    case Open(h, a) =>
      if b.fids == [] && !a.engine then b
      else if !CanGet(b, h, a) then
        b.(gone := b.gone || (Opens(h, a) && Slot(b.keys, h) == |b.keys| && a.memory && !Prepares(a) && b.keys != []))
      else if SetsUp(a) then b.(keys := WithKey(b.keys, h), fids := b.fids + [Slot(b.keys, h)])
      else b.(keys := WithKey(b.keys, h), kept := if a.converter then b.kept + 1 else b.kept)
    case Close(which) =>
      if which < |b.fids| then b.(fids := b.fids[..which] + b.fids[which + 1..]) else b
  }

  /** All requests, for as long as the table is there. */
  function BookedAll(b: Books, requests: seq<Request>): Books
    decreases |requests|
  {
    if requests == [] || b.gone then b else BookedAll(Booked(b, requests[0]), requests[1..])
  }

  lemma {:induction false} UsedSlot(before: seq<FaceInfo>, faces: set<nat>, after: seq<FaceInfo>, h: Hints, fid: int)
    requires TableOk(before, faces) && UsedOnceMore(before, after, h, fid)
    ensures fid == Slot(Keys(before), h) && Keys(after) == WithKey(Keys(before), h)
  {
    var i := Slot(Keys(before), h);
    assert i < |before| ==> Keys(before)[i] == (before[i].fontName, before[i].ttcno);
    if fid < |before| {
      assert Keys(before)[fid] == (h.fontName, h.ttcno);
      assert Keys(after) == Keys(before);
    } else {
      assert i < |before| ==> Matches(before[i], h);
      assert Keys(after) == Keys(before) + [(h.fontName, h.ttcno)];
    }
  }

  lemma {:induction false} SameKeys(table: seq<FaceInfo>, i: nat)
    ensures i < |table| ==> Keys(table[i := LessUsed(table[i])]) == Keys(table)
  {
  }

  /** The books say what FreeType_OpenFont will find. */
  lemma {:induction false} BooksKnow(table: seq<FaceInfo>, faces: set<nat>, fids: seq<int>, kept: nat, n: int, h: Hints, a: Answers)
    requires TableOk(table, faces) && Counts(table, multiset(fids), n)
    ensures n > 0 <==> fids != []
    ensures Gets(table, h, a) <==> CanGet(Books(Keys(table), fids, kept, false), h, a)
    ensures LosesTable(table, h, a) <==>
            Opens(h, a) && Slot(Keys(table), h) == |table| && a.memory && !Prepares(a) && table != []
    ensures Gets(table, h, a) ==> !LosesTable(table, h, a)
  {
    var i := Slot(Keys(table), h);
    if i < |table| {
      assert Keys(table)[i] == (table[i].fontName, table[i].ttcno);
      assert Matches(table[i], h);
      assert i in fids <==> multiset(fids)[i] > 0;
      assert InUse(table, h) <==> table[i].flag == 0;
    } else {
      assert forall j :: 0 <= j < |table| ==> Keys(table)[j] == (table[j].fontName, table[j].ttcno);
      assert !Known(table, h);
    }
  }

  // ----- the same, seen from outside -----

  /** The fonts that are open in the order of opening, the names and numbers for which a face has been had at some time,
      the code converters that failed calls have kept, and whether the table is lost. */
  datatype Ledger = Ledger(open: seq<Hints>, made: set<(string, int)>, kept: nat, gone: bool)

  predicate SameFont(a: Hints, b: Hints) {
    a.fontName == b.fontName && a.ttcno == b.ttcno
  }

  /** What a request does, call by call: the engine is created for the first font; file and collection are opened; an open
      font of the same name and number lends its face, and otherwise the new face is prepared, for which a new entry needs
      memory; then come the converter, the instance, its resolution and size, and the cache. */
  function Served(l: Ledger, q: Request): Ledger {
    match q
    case Close(which) => if which < |l.open| then l.(open := l.open[..which] + l.open[which + 1..]) else l
    case Open(h, a) =>
      var isNew := (h.fontName, h.ttcno) !in l.made;
      var prepared := a.properties2 && a.charMaps && a.glyph && (a.hasBitmaps ==> a.sbitImage);
      if l.open == [] && !a.engine then l
      else if !(a.openFace && a.properties) then l
      else if h.ttcno != 0 && !(0 <= h.ttcno < a.numFaces && a.openCollection) then l
      else if (forall i :: 0 <= i < |l.open| ==> !SameFont(l.open[i], h)) && isNew && !a.memory then l
      else if (forall i :: 0 <= i < |l.open| ==> !SameFont(l.open[i], h)) && !prepared then l.(gone := l.gone || (isNew && l.made != {}))
      else
        var l1 := l.(made := l.made + {(h.fontName, h.ttcno)});
        if !a.converter then l1
        else if !(a.instance && a.resolutions && a.charSize && a.cache) then l1.(kept := l.kept + 1)
        else l1.(open := l.open + [h])
  }

  function ServedAll(l: Ledger, requests: seq<Request>): Ledger
    decreases |requests|
  {
    if requests == [] || l.gone then l else ServedAll(Served(l, requests[0]), requests[1..])
  }

  /** The books keep what the ledger says: the entry of every open font is the one of its name and number. */
  ghost predicate Keeps(b: Books, l: Ledger) {
    && |b.fids| == |l.open| && b.kept == l.kept && b.gone == l.gone
    && (forall i :: 0 <= i < |b.fids| ==> 0 <= b.fids[i] < |b.keys| && b.keys[b.fids[i]] == (l.open[i].fontName, l.open[i].ttcno))
    && (forall i, j :: 0 <= i < j < |b.keys| ==> b.keys[i] != b.keys[j])
    && (forall k :: k in b.keys <==> k in l.made)
  }

  lemma {:induction false} KeptSlot(b: Books, l: Ledger, h: Hints)
    requires Keeps(b, l)
    ensures Slot(b.keys, h) < |b.keys| <==> (h.fontName, h.ttcno) in l.made
    ensures Slot(b.keys, h) < |b.keys| ==> (Slot(b.keys, h) in b.fids <==> exists i :: 0 <= i < |l.open| && SameFont(l.open[i], h))
    ensures Slot(b.keys, h) == |b.keys| ==> forall i :: 0 <= i < |l.open| ==> !SameFont(l.open[i], h)
    ensures b.keys != [] <==> l.made != {}
  {
    var i := Slot(b.keys, h);
    if i < |b.keys| {
      assert b.keys[i] in b.keys;
      forall j | 0 <= j < |b.fids| ensures b.fids[j] == i <==> SameFont(l.open[j], h) {}
    }
    if b.keys != [] { assert b.keys[0] in b.keys; }
    if l.made != {} {
      var k :| k in l.made;
      assert k in b.keys;
    }
  }

  lemma {:induction false} KeepsAdded(b: Books, l: Ledger, h: Hints)
    requires Keeps(b, l)
    ensures Keeps(b.(keys := WithKey(b.keys, h)), l.(made := l.made + {(h.fontName, h.ttcno)}))
    ensures Slot(b.keys, h) < |WithKey(b.keys, h)| && WithKey(b.keys, h)[Slot(b.keys, h)] == (h.fontName, h.ttcno)
  {
    KeptSlot(b, l, h);
  }

  lemma {:induction false} KeepsClosed(b: Books, l: Ledger, which: nat)
    requires Keeps(b, l) && which < |b.fids|
    ensures Keeps(b.(fids := b.fids[..which] + b.fids[which + 1..]), l.(open := l.open[..which] + l.open[which + 1..]))
  {
  }

  lemma {:induction false} KeepsServed(b: Books, l: Ledger, q: Request)
    requires Keeps(b, l)
    ensures Keeps(Booked(b, q), Served(l, q))
  {
    hide Slot, WithKey;
    match q
    case Close(which) => if which < |b.fids| { KeepsClosed(b, l, which); }
    case Open(h, a) =>
      KeptSlot(b, l, h);
      KeepsAdded(b, l, h);
  }

  lemma {:induction false} KeepsAll(b: Books, l: Ledger, requests: seq<Request>)
    requires Keeps(b, l)
    ensures Keeps(BookedAll(b, requests), ServedAll(l, requests))
    decreases |requests|
  {
    hide Booked, Served;
    if requests != [] && !b.gone {
      KeepsServed(b, l, requests[0]);
      KeepsAll(Booked(b, requests[0]), Served(l, requests[0]), requests[1..]);
    }
  }

  /** Any requests one after the other, for as long as the table is there: just the fonts that could be opened and were
      not closed are open; the counts stay in balance, a face is open exactly while some font uses it, and no entry is
      there twice; and every code converter in use is that of an open font, or one that a failed call has kept. */
  method Serve(requests: seq<Request>) returns (r: Renderer, fids: seq<int>, kept: nat)
    ensures r.Valid() && r.live == multiset(fids) && r.initCount == |fids|
    ensures Books(Keys(r.faceTable), fids, kept, r.stale) == BookedAll(Books([], [], 0, false), requests)
    ensures var l := ServedAll(Ledger([], {}, 0, false), requests);
            && |fids| == |l.open| && r.converters == |l.open| + l.kept && r.stale == l.gone
            && (forall i :: 0 <= i < |fids| ==> 0 <= fids[i] < |r.faceTable| && r.faceTable[fids[i]].fontName == l.open[i].fontName
                                                && r.faceTable[fids[i]].ttcno == l.open[i].ttcno)
            && (forall i, j :: 0 <= i < |fids| && 0 <= j < |fids| ==> (fids[i] == fids[j] <==> SameFont(l.open[i], l.open[j])))
            && (forall k :: k in l.made <==> exists i :: 0 <= i < |r.faceTable| && (r.faceTable[i].fontName, r.faceTable[i].ttcno) == k)
    ensures forall i :: 0 <= i < |r.faceTable| ==>
              r.faceTable[i].refCount == multiset(fids)[i] && (r.faceTable[i].refCount > 0 <==> r.faceTable[i].face in r.faces)
  {
    hide Counts, TableOk, FacesBelow, Booked, ServedAll, Keys, SameFont;
    r := new Renderer();
    fids, kept := [], 0;
    NoKeys();
    var k := 0;
    assert requests[0..] == requests;
    while k < |requests| && !r.stale
      invariant 0 <= k <= |requests| && r.Valid() && r.live == multiset(fids) && fresh(r) && r.converters == |fids| + kept
      invariant BookedAll(Books(Keys(r.faceTable), fids, kept, r.stale), requests[k..]) == BookedAll(Books([], [], 0, false), requests)
    {
      assert requests[k..][1..] == requests[k + 1..];
      fids, kept := ServeOne(r, fids, kept, requests[k]);
      k := k + 1;
    }
    Balance(r);
    Ledgered(r, fids, kept, requests);
  }

  lemma {:induction false} Ledgered(r: Renderer, fids: seq<int>, kept: nat, requests: seq<Request>)
    requires Books(Keys(r.faceTable), fids, kept, r.stale) == BookedAll(Books([], [], 0, false), requests)
    ensures var l := ServedAll(Ledger([], {}, 0, false), requests);
            && |fids| == |l.open| && kept == l.kept && r.stale == l.gone
            && (forall i :: 0 <= i < |fids| ==> 0 <= fids[i] < |r.faceTable| && r.faceTable[fids[i]].fontName == l.open[i].fontName
                                                && r.faceTable[fids[i]].ttcno == l.open[i].ttcno)
            && (forall i, j :: 0 <= i < |fids| && 0 <= j < |fids| ==> (fids[i] == fids[j] <==> SameFont(l.open[i], l.open[j])))
            && (forall k :: k in l.made <==> exists i :: 0 <= i < |r.faceTable| && (r.faceTable[i].fontName, r.faceTable[i].ttcno) == k)
  {
    KeepsAll(Books([], [], 0, false), Ledger([], {}, 0, false), requests);
    hide BookedAll, ServedAll;
    var l, keys := ServedAll(Ledger([], {}, 0, false), requests), Keys(r.faceTable);
    forall k ensures k in l.made <==> exists i :: 0 <= i < |r.faceTable| && (r.faceTable[i].fontName, r.faceTable[i].ttcno) == k {
      if k in l.made {
        assert k in keys;
        var i :| 0 <= i < |keys| && keys[i] == k;
        assert (r.faceTable[i].fontName, r.faceTable[i].ttcno) == k;
      }
      if i :| 0 <= i < |r.faceTable| && (r.faceTable[i].fontName, r.faceTable[i].ttcno) == k {
        assert keys[i] == k;
      }
    }
  }

  lemma {:induction false} NoKeys()
    ensures Keys([]) == []
  {
  }

  method ServeOne(r: Renderer, fids0: seq<int>, kept0: nat, q: Request) returns (fids: seq<int>, kept: nat)
    requires r.Valid() && r.live == multiset(fids0) && !r.stale && r.converters == |fids0| + kept0
    modifies r
    ensures r.Valid() && r.live == multiset(fids) && r.converters == |fids| + kept
    ensures Books(Keys(r.faceTable), fids, kept, r.stale) == Booked(Books(Keys(old(r.faceTable)), fids0, kept0, false), q)
  {
    hide Counts, TableOk, FacesBelow, Keys, Slot, WithKey, Gets, CanGet, LosesTable, Opens, Prepares, SameUses, Renderer.Valid;
    fids, kept := fids0, kept0;
    match q {
      case Open(h, a) => fids, kept := ServeOpen(r, fids, kept, h, a);
      case Close(which) => if which < |fids| { fids := ServeClose(r, fids, which); }
    }
  }

  method ServeOpen(r: Renderer, fids0: seq<int>, kept0: nat, h: Hints, a: Answers) returns (fids: seq<int>, kept: nat)
    requires r.Valid() && r.live == multiset(fids0) && !r.stale && r.converters == |fids0| + kept0
    modifies r
    ensures r.Valid() && r.live == multiset(fids) && r.converters == |fids| + kept
    ensures Books(Keys(r.faceTable), fids, kept, r.stale) == Booked(Books(Keys(old(r.faceTable)), fids0, kept0, false), Open(h, a))
  {
    hide Counts, TableOk, FacesBelow, Keys, Slot, WithKey, Gets, CanGet, LosesTable, Opens, Prepares, SameUses;
    fids, kept := fids0, kept0;
    BooksKnow(r.faceTable, r.faces, fids, kept, r.initCount, h, a);
    var ft := new Font();
    var before := r.converters;
    var ok := r.OpenFont(ft, h, a);
    if ok { fids := fids + [ft.fid]; } else { kept := kept + (r.converters - before); }
  }

  method ServeClose(r: Renderer, fids0: seq<int>, which: nat) returns (fids: seq<int>)
    requires r.Valid() && r.live == multiset(fids0) && which < |fids0|
    modifies r
    ensures r.Valid() && r.live == multiset(fids) && r.converters == old(r.converters) - 1 && fids == fids0[..which] + fids0[which + 1..]
    ensures Keys(r.faceTable) == Keys(old(r.faceTable)) && r.stale == old(r.stale)
  {
    hide Counts, TableOk, FacesBelow, Keys;
    var ft := new Font();
    ft.fid := fids0[which];
    assert fids0 == fids0[..which] + [fids0[which]] + fids0[which + 1..];
    r.CloseFont(ft);
    fids := fids0[..which] + fids0[which + 1..];
  }

  /** A font whose instance cannot be made is not opened, and its code converter stays in use. */
  method KeepConverter() returns (r: Renderer, ok: bool)
    ensures !ok && r.live == multiset{} && r.initCount == 0 && r.converters == 1
  {
    r := new Renderer();
    var ft := new Font();
    ok := r.OpenFont(ft, Hints("n", "f", 0),
                     Answers(true, true, true, 1, true, true, true, true, true, false, true, true, false, true, true, true));
  }

  /** Without memory for the entry the face of the file stays open. */
  method KeepFace() returns (r: Renderer, fid: int)
    ensures fid < 0 && r.faceTable == [] && r.faces != {}
  {
    r := new Renderer();
    fid := r.OpenFace(Hints("n", "f", 0),
                      Answers(true, true, true, 1, true, false, true, true, true, false, true, true, true, true, true, true));
  }

  /** The second font is new, and its properties cannot be read: the table has been given back. */
  method LoseTable() returns (r: Renderer, first: bool, second: bool)
    ensures first && !second && r.stale
  {
    hide Counts, TableOk, FacesBelow, SameUses, Renderer.Valid;
    r := new Renderer();
    var ft := new Font();
    first := r.OpenFont(ft, Hints("n", "f", 0),
                        Answers(true, true, true, 1, true, true, true, true, true, false, true, true, true, true, true, true));
    assert Keys(r.faceTable) == [("n", 0)];
    assert |r.faceTable| == 1 && Keys(r.faceTable)[0] == (r.faceTable[0].fontName, r.faceTable[0].ttcno);
    assert r.faceTable[0].fontName == "n";
    second := r.OpenFont(ft, Hints("m", "g", 0),
                         Answers(true, true, true, 1, true, true, false, true, true, false, true, true, true, true, true, true));
  }

  lemma {:induction false} Balance(r: Renderer)
    requires r.Valid()
    ensures r.initCount == |r.live|
    ensures forall i :: 0 <= i < |r.faceTable| ==>
              r.faceTable[i].refCount == r.live[i] && (r.faceTable[i].refCount > 0 <==> r.faceTable[i].face in r.faces)
  {
  }
}
