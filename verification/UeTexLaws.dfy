/**
 * The cooked texture package of tools/client_model/ue_tex.py read back field by field: every offset of the
 * header by name, the names in their places, and every number of the rebuilt export.
 */
module UeTexLaws {
  import opened Results
  import opened Bytes
  import opened UePkg
  import opened UePkgProofs
  import opened FoundBytes
  import opened UeTex

  // ----- the header's offsets, one by one -----

  /** The field was unused and still is, or it moved with the part of the file that it leads into. */
  ghost predicate OffsetCarried(ua: Data, p: Plan, us: seq<Token>, h: Data, blob: Data, key: Key) {
    var v, w := Lookup(p.toks, key), Lookup(us, key);
    && (v.None? || v.value <= 0 ==> w == v)
    && (v.Some? && 0 < v.value ==> w == Some(v.value + Delta(p, blob)))
    && (v.Some? && 0 < v.value && p.nmEnd <= v.value ==> SameTarget(ua, p, us, h, key))
  }

  lemma CarriedIs(ua: Data, p: Plan, us: seq<Token>, blob: Data, size: int, bulk: int, h: Data, key: Key)
    requires Rebuilt(ua, p, us, blob, size, h) && ShiftAll(p.toks, Delta(p, blob), bulk) == Some(us)
    requires Moves(key)
    ensures OffsetCarried(ua, p, us, h, blob, key)
  {
    hide Rebuilt, ShiftAll, Lookup, SameTarget, Moves;
    var v := Lookup(p.toks, key);
    MovesNotBulk(key);
    LookupShifted(p.toks, us, Delta(p, blob), bulk, key);
    if v.Some? && 0 < v.value && p.nmEnd <= v.value { TargetKept(ua, p, us, blob, size, bulk, h, key); }
  }

  lemma MovesNotBulk(key: Key)
    requires Moves(key)
    ensures key != BULK
  {
  }

  lemma OneIsCarried(ua: Data, uexp: Data, w: int, h: int, pixels: Data, names: seq<string>, p: Plan,
                     us: seq<Token>, out: Package, key: Key)
    requires CookedFrom(ua, uexp, w, h, pixels, names, p, us, out) && Moves(key)
    ensures OffsetCarried(ua, p, us, out.uasset, NameBlob(names), key)
  {
    hide Rebuilt, ShiftAll, NewUexp, Loaded, NameBlob, OffsetCarried, Moves;
    CarriedIs(ua, p, us, NameBlob(names), |out.uexp| - 4, BulkStart(p, NameBlob(names), |pixels|), out.uasset, key);
  }

  /** The summary's offsets into the file, other than that of the name map itself. */
  predicate IsOffset(key: Key) {
    key in {ExportOffset, ImportOffset, DependsOffset, SoftRefOffset, GatherableOffset, SearchableNamesOffset,
            ThumbnailTableOffset, AssetRegistryDataOffset, WorldTileInfoDataOffset, PreloadDependencyOffset}
  }

  lemma OffsetsMove(key: Key)
    requires IsOffset(key)
    ensures Moves(key)
  {
  }

  /** Each of the ten offsets is carried to where the new header has what it led to. */
  lemma EveryOffsetIsCarried(ua: Data, uexp: Data, w: int, h: int, pixels: Data, names: seq<string>, p: Plan,
                             us: seq<Token>, out: Package, key: Key)
    requires CookedFrom(ua, uexp, w, h, pixels, names, p, us, out) && IsOffset(key)
    requires forall i :: 0 <= i < |names| ==> Storable(names[i])
    ensures OffsetCarried(ua, p, us, out.uasset, NameBlob(names), key)
  {
    hide CookedFrom, NameBlob, OffsetCarried, IsOffset, Moves;
    OffsetsMove(key);
    OneIsCarried(ua, uexp, w, h, pixels, names, p, us, out, key);
  }

  /** A number that is no offset into the file. */
  predicate IsCountOrVersion(key: Key) {
    key in {Legacy, LegacyUE3, FileVerUE4, FileVerLicensee, NameCount, NameOffset, GatherableCount, ExportCount,
            ImportCount, SoftRefCount, PreloadDependencyCount}
  }

  /** The name map stays where it was, and all counts and versions keep their values. */
  lemma CountsAreKept(ua: Data, uexp: Data, w: int, h: int, pixels: Data, names: seq<string>, p: Plan,
                      us: seq<Token>, out: Package, key: Key)
    requires CookedFrom(ua, uexp, w, h, pixels, names, p, us, out) && IsCountOrVersion(key)
    ensures Lookup(us, key) == Lookup(p.toks, key)
  {
    hide ShiftAll, Lookup, NewUexp, Relocatable, Loaded, NameBlob, Rebuilt;
    assert !Moves(key) && key != BULK;
    OtherFieldsKept(p, us, NameBlob(names), BulkStart(p, NameBlob(names), |pixels|), key);
  }

  // ----- the names -----

  /** What each name of the template becomes: the package path, the format and the asset change. */
  function NewName(texts: seq<string>, path: string, asset: string, i: nat): string
    requires i < |texts|
  {
    if i == 0 then path else if i == 13 then "PF_B8G8R8A8" else if i == 15 then asset else texts[i]
  }

  /** The name map of the cooked header reads as the template's with just these three names changed. */
  lemma CookedNames(ua: Data, uexp: Data, w: int, h: int, pixels: Data, path: string, asset: string, p: Plan,
                    us: seq<Token>, out: Package, i: nat)
    requires Loadable(ua) && p == Template(ua) && |NamesOf(ua, p)| > 15
    requires CookedFrom(ua, uexp, w, h, pixels, Renamed(Texts(NamesOf(ua, p)), path, asset), p, us, out)
    requires i < |NamesOf(ua, p)|
    ensures p.nameOffset <= |out.uasset|
    ensures var texts := Texts(NamesOf(ua, p)); var r := ReadNames(out.uasset[p.nameOffset..], |texts|);
      && r.Some? && Encodable(NewName(texts, path, asset, i))
      && r.value.0[i] == Name(NewName(texts, path, asset, i), HashBytes(NewName(texts, path, asset, i)))
  {
    hide CookedFrom, Loadable, Template, Loaded, HashBytes, Storable, Encodable, ReadNames;
    TemplateIsLoaded(ua);
    LoadedNames(ua, p);
    var names := Renamed(Texts(NamesOf(ua, p)), path, asset);
    CookedHolds(ua, uexp, w, h, pixels, names, p, us, out);
    assert names[i] == NewName(Texts(NamesOf(ua, p)), path, asset, i);
    StorableEncodes(names[i]);
  }

  lemma LoadedNames(ua: Data, p: Plan)
    requires Loaded(ua, p)
    ensures p.nameOffset <= |ua| && ReadNames(ua[p.nameOffset..], p.nameCount).Some?
  {
    hide ReadNames, Parsed, Lookup;
  }

  lemma CookedHolds(ua: Data, uexp: Data, w: int, h: int, pixels: Data, names: seq<string>, p: Plan,
                    us: seq<Token>, out: Package)
    requires CookedFrom(ua, uexp, w, h, pixels, names, p, us, out)
    ensures HoldsNames(out.uasset, p.nameOffset, names)
  {
    hide CookedFrom, HoldsNames, LoadsAs, NameBlob, Parsed, Lookup, PointsBehind, SameTarget, EntryHolds,
      OffsetsAddress, ReparsePasses, Storable;
    CookedPackage(ua, uexp, w, h, pixels, names, p, us, out);
  }

  lemma StorableEncodes(s: string)
    requires Storable(s)
    ensures Encodable(s)
  {
  }

  // ----- the export, number by number -----

  /** The fixed parts between the properties and the pixels, and behind them. */
  lemma SkipFields()
    ensures var b := BeforeSkip();
      && Finds(b, 0, EncI32(0)) && Finds(b, 4, [1, 0, 1, 0]) && Finds(b, 8, EncI32(1))
      && Finds(b, 12, EncI32(13)) && Finds(b, 16, EncI32(0))
  {
    hide EncI32;
  }

  lemma TailFields(w: int, h: int)
    requires InI32(w) && InI32(h)
    ensures var b := AfterPixels(w, h);
      Finds(b, 0, EncI32(w)) && Finds(b, 4, EncI32(h)) && Finds(b, 8, EncI32(1)) && Finds(b, 12, EncI32(0))
    ensures Finds(NoneName(), 0, EncI32(11)) && Finds(NoneName(), 4, EncI32(0))
  {
    hide EncI32;
  }

  lemma OffsetFields(w: int, h: int, n: int)
    requires InI32(w) && InI32(h) && InI32(n)
    ensures var b := BeforeOffset(w, h, n);
      && Finds(b, 0, EncI32(w)) && Finds(b, 4, EncI32(h)) && Finds(b, 8, EncU32(1)) && Finds(b, 12, EncI32(12))
      && Finds(b, 16, PfBytes()) && Finds(b, 28, EncI32(0)) && Finds(b, 32, EncI32(1))
      && Finds(b, 36, EncU32(1)) && Finds(b, 40, EncU32(0x48)) && Finds(b, 44, EncI32(n)) && Finds(b, 48, EncI32(n))
  {
    hide EncI32, EncU32, PfBytes, Finds;
    FourFields(EncI32(w), EncI32(h), EncU32(1), EncI32(12));
    var front := EncI32(w) + EncI32(h) + EncU32(1) + EncI32(12);
    var end := EncI32(0) + EncI32(1) + EncU32(1) + EncU32(0x48) + EncI32(n) + EncI32(n);
    SixFields(EncI32(0), EncI32(1), EncU32(1), EncU32(0x48), EncI32(n), EncI32(n));
    var b := BeforeOffset(w, h, n);
    assert b == front + PfBytes() + end;
    FindsMiddle([], front, PfBytes() + end);
    assert b == [] + front + (PfBytes() + end);
    FindsMiddle(front + PfBytes(), end, []);
    assert b == (front + PfBytes()) + end + [];
    FindsMiddle(front, PfBytes(), end);
    FindsInside(b, 0, front, 0, EncI32(w));
    FindsInside(b, 0, front, 4, EncI32(h));
    FindsInside(b, 0, front, 8, EncU32(1));
    FindsInside(b, 0, front, 12, EncI32(12));
    FindsInside(b, 28, end, 0, EncI32(0));
    FindsInside(b, 28, end, 4, EncI32(1));
    FindsInside(b, 28, end, 8, EncU32(1));
    FindsInside(b, 28, end, 12, EncU32(0x48));
    FindsInside(b, 28, end, 16, EncI32(n));
    FindsInside(b, 28, end, 20, EncI32(n));
  }

  lemma FourFields(a: Data, b: Data, c: Data, d: Data)
    requires |a| == |b| == |c| == |d| == 4
    ensures var s := a + b + c + d; Finds(s, 0, a) && Finds(s, 4, b) && Finds(s, 8, c) && Finds(s, 12, d)
  {
  }

  lemma SixFields(a: Data, b: Data, c: Data, d: Data, e: Data, f: Data)
    requires |a| == |b| == |c| == |d| == |e| == |f| == 4
    ensures var s := a + b + c + d + e + f;
      && Finds(s, 0, a) && Finds(s, 4, b) && Finds(s, 8, c) && Finds(s, 12, d) && Finds(s, 16, e) && Finds(s, 20, f)
  {
  }

  /** Where the nine parts of the export lie. */
  lemma ExportParts(uexp: Data, w: int, h: int, pixels: Data, ths: int)
    requires |uexp| >= PROPS && InI32(w) && InI32(h) && InI32(|pixels|)
    requires InI64(ths + PAYLOAD) && InI64(ths + PAYLOAD + |pixels| + 16)
    ensures var b, n := NewUexp(uexp, w, h, pixels, ths), |pixels|;
      && |b| == 287 + n && Finds(b, 0, NewProps(uexp, w, h)) && Finds(b, 171, BeforeSkip())
      && Finds(b, 191, EncI64(ths + 275 + n)) && Finds(b, 199, BeforeOffset(w, h, n))
      && Finds(b, 251, EncI64(ths + 259)) && Finds(b, 259, pixels) && Finds(b, 259 + n, AfterPixels(w, h))
      && Finds(b, 275 + n, NoneName()) && Finds(b, 283 + n, uexp[|uexp| - 4..])
  {
    hide EncI64, BeforeSkip, BeforeOffset, AfterPixels, NoneName, NewProps, Finds, FindsAll;
    var b, n := NewUexp(uexp, w, h, pixels, ths), |pixels|;
    var s, mid, end := BeforeSkip(), BeforeOffset(w, h, n), AfterPixels(w, h);
    var p := NewProps(uexp, w, h);
    var x, y, tag := EncI64(ths + PAYLOAD + n + 16), EncI64(ths + PAYLOAD), uexp[|uexp| - 4..];
    NineParts(p, s, x, mid, y, pixels, end, NoneName(), tag);
    assert b == p + s + x + mid + y + pixels + end + NoneName() + tag;
    var fs := [(0, p), (|p|, s), (|p + s|, x), (|p + s + x|, mid), (|p + s + x + mid|, y),
               (|p + s + x + mid + y|, pixels),
               (|p + s + x + mid + y + pixels|, end), (|p + s + x + mid + y + pixels + end|, NoneName()),
               (|p + s + x + mid + y + pixels + end + NoneName()|, tag)];
    forall i | 0 <= i < 9 ensures Finds(b, fs[i].0, fs[i].1) { FindsAt(b, fs, i); }
    assert fs[0] == (0, p) && fs[1] == (171, s) && fs[2] == (191, x) && fs[3] == (199, mid) && fs[4] == (251, y);
    assert fs[5] == (259, pixels) && fs[6] == (259 + n, end);
    assert fs[7] == (275 + n, NoneName()) && fs[8] == (283 + n, tag);
  }

  lemma NineParts(a: Data, b: Data, c: Data, d: Data, e: Data, f: Data, g: Data, h: Data, i: Data)
    ensures FindsAll(a + b + c + d + e + f + g + h + i,
                     [(0, a), (|a|, b), (|a + b|, c), (|a + b + c|, d), (|a + b + c + d|, e), (|a + b + c + d + e|, f),
                      (|a + b + c + d + e + f|, g), (|a + b + c + d + e + f + g|, h),
                      (|a + b + c + d + e + f + g + h|, i)])
  {
    hide FindsAll, Finds;
    var fs := [(0, a)];
    assert FindsAll(a, fs) by { OneOnly(a); }
    OneMorePart(a, fs, b);
    fs := fs + [(|a|, b)];
    OneMorePart(a + b, fs, c);
    fs := fs + [(|a + b|, c)];
    OneMorePart(a + b + c, fs, d);
    fs := fs + [(|a + b + c|, d)];
    OneMorePart(a + b + c + d, fs, e);
    fs := fs + [(|a + b + c + d|, e)];
    OneMorePart(a + b + c + d + e, fs, f);
    fs := fs + [(|a + b + c + d + e|, f)];
    OneMorePart(a + b + c + d + e + f, fs, g);
    fs := fs + [(|a + b + c + d + e + f|, g)];
    OneMorePart(a + b + c + d + e + f + g, fs, h);
    fs := fs + [(|a + b + c + d + e + f + g|, h)];
    OneMorePart(a + b + c + d + e + f + g + h, fs, i);
    fs := fs + [(|a + b + c + d + e + f + g + h|, i)];
    assert fs == [(0, a), (|a|, b), (|a + b|, c), (|a + b + c|, d), (|a + b + c + d|, e), (|a + b + c + d + e|, f),
                  (|a + b + c + d + e + f|, g), (|a + b + c + d + e + f + g|, h),
                  (|a + b + c + d + e + f + g + h|, i)];
  }

  /** The properties keep every byte but the imported size. */
  lemma PropsFields(uexp: Data, w: int, h: int)
    requires |uexp| >= PROPS && InI32(w) && InI32(h)
    ensures var b := NewProps(uexp, w, h);
      && Finds(b, 49, EncI32(w)) && Finds(b, 53, EncI32(h))
      && forall i :: 0 <= i < 171 && !(49 <= i < 57) ==> b[i] == uexp[i]
  {
    hide EncI32;
    var b, x := NewProps(uexp, w, h), EncI32(w) + EncI32(h);
    assert b[49..57] == x;
    assert b[49..53] == b[49..57][0..4] == x[0..4] == EncI32(w);
    assert b[53..57] == b[49..57][4..8] == x[4..8] == EncI32(h);
  }

  /** The numbers in front of the skip offset: guid flag, cooked flag, and the format's name and number. */
  lemma SkipNumbers(b: Data)
    requires Finds(b, 171, BeforeSkip())
    ensures Numbers(b, [(171, 0), (179, 1), (183, 13), (187, 0)]) && Finds(b, 175, [1, 0, 1, 0])
  {
    hide EncI32, Finds, BeforeSkip, ReadsI32;
    SkipFields();
    NumberInside(b, 171, BeforeSkip(), 0, 0);
    FindsInside(b, 171, BeforeSkip(), 4, [1, 0, 1, 0]);
    NumberInside(b, 171, BeforeSkip(), 8, 1);
    NumberInside(b, 171, BeforeSkip(), 12, 13);
    NumberInside(b, 171, BeforeSkip(), 16, 0);
  }

  /** Size, slices, format string, first mip and mips, and the one mip's flags and lengths. */
  lemma SizeNumbers(b: Data, w: int, h: int, n: int)
    requires InI32(w) && InI32(h) && InI32(n) && Finds(b, 199, BeforeOffset(w, h, n))
    ensures Numbers(b, [(199, w), (203, h), (207, 1), (211, 12)])
    ensures Numbers(b, [(227, 0), (231, 1), (235, 1), (239, 72), (243, n), (247, n)])
    ensures Finds(b, 215, PfBytes())
  {
    hide EncI32, EncU32, Finds, BeforeOffset, ReadsI32, PfBytes;
    var part := BeforeOffset(w, h, n);
    OffsetFields(w, h, n);
    SmallU32(1);
    SmallU32(72);
    NumberInside(b, 199, part, 0, w);
    NumberInside(b, 199, part, 4, h);
    NumberInside(b, 199, part, 8, 1);
    NumberInside(b, 199, part, 12, 12);
    FindsInside(b, 199, part, 16, PfBytes());
    NumberInside(b, 199, part, 28, 0);
    NumberInside(b, 199, part, 32, 1);
    NumberInside(b, 199, part, 36, 1);
    NumberInside(b, 199, part, 40, 72);
    NumberInside(b, 199, part, 44, n);
    NumberInside(b, 199, part, 48, n);
  }

  /** Behind the pixels: the mip's size, the virtual flag, and the terminating name. */
  lemma EndNumbers(b: Data, w: int, h: int, n: int)
    requires InI32(w) && InI32(h) && Finds(b, 259 + n, AfterPixels(w, h)) && Finds(b, 275 + n, NoneName())
    ensures Numbers(b, [(259 + n, w), (263 + n, h), (267 + n, 1), (271 + n, 0), (275 + n, 11), (279 + n, 0)])
  {
    hide EncI32, Finds, AfterPixels, NoneName, ReadsI32;
    TailFields(w, h);
    NumberInside(b, 259 + n, AfterPixels(w, h), 0, w);
    NumberInside(b, 259 + n, AfterPixels(w, h), 4, h);
    NumberInside(b, 259 + n, AfterPixels(w, h), 8, 1);
    NumberInside(b, 259 + n, AfterPixels(w, h), 12, 0);
    NumberInside(b, 275 + n, NoneName(), 0, 11);
    NumberInside(b, 275 + n, NoneName(), 4, 0);
  }

  /** The format's string reads as its name and a terminator. */
  lemma FormatString()
    ensures FromLatin1(PfBytes()[..11]) == "PF_B8G8R8A8" && PfBytes()[11] == 0
  {
    NewPfEncodes();
    Latin1RoundTrip(NEW_PF);
    assert PfBytes()[..11] == Latin1(NEW_PF);
  }

  /**
   * The export that was built, at the offsets its layout gives: the template's properties with the imported
   * size, then every number, the format's string, the pixels, the terminator and the template's last four
   * bytes.
   */
  lemma ExportReads(uexp: Data, w: int, h: int, pixels: Data, ths: int)
    requires |uexp| >= PROPS && InI32(w) && InI32(h) && InI32(|pixels|)
    requires InI64(ths + PAYLOAD) && InI64(ths + PAYLOAD + |pixels| + 16)
    ensures var b, n := NewUexp(uexp, w, h, pixels, ths), |pixels|;
      && |b| == 287 + n && (forall i :: 0 <= i < 171 && !(49 <= i < 57) ==> b[i] == uexp[i])
      && Numbers(b, [(49, w), (53, h)])
      && Numbers(b, [(171, 0), (179, 1), (183, 13), (187, 0)]) && Finds(b, 175, [1, 0, 1, 0])
      && Numbers(b, [(199, w), (203, h), (207, 1), (211, 12)])
      && Numbers(b, [(227, 0), (231, 1), (235, 1), (239, 72), (243, n), (247, n)])
      && FromLatin1(b[215..226]) == "PF_B8G8R8A8" && b[226] == 0
      && Finds(b, 259, pixels)
      && Numbers(b, [(259 + n, w), (263 + n, h), (267 + n, 1), (271 + n, 0), (275 + n, 11), (279 + n, 0)])
      && Finds(b, 283 + n, uexp[|uexp| - 4..])
  {
    hide NewUexp, BeforeSkip, BeforeOffset, AfterPixels, NoneName, PfBytes, EncI32, EncI64, ReadsI32, Numbers, NewProps;
    var b, n := NewUexp(uexp, w, h, pixels, ths), |pixels|;
    ExportParts(uexp, w, h, pixels, ths);
    PropsFields(uexp, w, h);
    var props := NewProps(uexp, w, h);
    forall i | 0 <= i < 171 && !(49 <= i < 57) ensures b[i] == uexp[i] { assert b[0..171][i] == props[i]; }
    NumberInside(b, 0, props, 49, w);
    NumberInside(b, 0, props, 53, h);
    TwoNumbers(b, 49, w, 53, h);
    SkipNumbers(b);
    SizeNumbers(b, w, h, n);
    EndNumbers(b, w, h, n);
    FormatString();
    assert b[215..226] == b[215..227][..11] && b[226] == b[215..227][11];
  }

  /** The rebuilt native tail starts with the bytes the template was checked for. */
  lemma TailStartsAsTrusted(names: seq<Name>, uexp: Data, w: int, h: int, pixels: Data, ths: int)
    requires Trusted(names, uexp) && |uexp| >= PROPS && InI32(w) && InI32(h) && InI32(|pixels|)
    requires InI64(ths + PAYLOAD) && InI64(ths + PAYLOAD + |pixels| + 16)
    ensures Finds(NewUexp(uexp, w, h, pixels, ths), 171, uexp[171..179]) && DecI32(uexp[49..]) == 512
  {
    hide NewUexp, BeforeOffset, AfterPixels, NoneName, EncI64, NewProps, HashesAgree;
    var b := NewUexp(uexp, w, h, pixels, ths);
    ExportParts(uexp, w, h, pixels, ths);
    FindsInside(b, 171, BeforeSkip(), 0, uexp[171..179]);
  }
}
