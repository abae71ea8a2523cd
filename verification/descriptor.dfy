/**
 * The text surgery `clone_vm` performs on a domain descriptor (libvirt_api.c): pull out the
 * first disk path, derive the clone's image path, rewrite the first `<name>` element, drop the
 * first `<uuid>` element and substitute the disk path. `destroy_vm` uses the same disk path
 * extraction. Every step is a pure function over the descriptor text.
 */
module Descriptor {
  import opened Wrappers
  import opened Text

  /** The text `strstr` looks for in front of the disk path. */
  const SourceMarker := "<source file='"
  /** The field width of the `%511[^']` conversion. */
  const DiskPathLimit: nat := 511
  /** Directory and extension of the clone's disk image. */
  const ImagesDir := "/var/lib/libvirt/images/"
  const ImageSuffix := ".qcow2"

  const NameOpen := "<name>"
  const NameClose := "</name>"
  const UuidOpen := "<uuid>"
  const UuidClose := "</uuid>"

  // ---------------------------------------------------------------------------------------
  // Disk path extraction
  // ---------------------------------------------------------------------------------------

  /** `run` is what `%<limit>[^']` stores when scanning `rest`: its longest quote-free prefix, cut at `limit`. */
  predicate MaximalRun(rest: string, run: string, limit: nat) {
    && |run| <= limit
    && run <= rest
    && (forall i :: 0 <= i < |run| ==> run[i] != '\'')
    && (|run| == limit || |run| == |rest| || rest[|run|] == '\'')
  }

  /** The scan itself, one character at a time. */
  function QuoteFreeRun(rest: string, limit: nat): (r: string)
    ensures MaximalRun(rest, r, limit)
  {
    if limit == 0 || |rest| == 0 || rest[0] == '\'' then []
    else [rest[0]] + QuoteFreeRun(rest[1..], limit - 1)
  }

  /** The scan has exactly one possible result. */
  lemma {:induction false} MaximalRunUnique(rest: string, a: string, b: string, limit: nat)
    requires MaximalRun(rest, a, limit) && MaximalRun(rest, b, limit)
    ensures a == b
  {
  }

  /**
   * The disk path `clone_vm` and `destroy_vm` read: the run after the first `<source file='`,
   * or nothing when the marker is absent.
   */
  function ExtractDiskPath(xml: string): (r: Option<string>)
    ensures r.None? <==> !Occurs(SourceMarker, xml)
    ensures r.Some? ==> Find(xml, SourceMarker).Some?
    ensures r.Some? ==>
      MaximalRun(xml[Find(xml, SourceMarker).value + |SourceMarker|..], r.value, DiskPathLimit)
  {
    match Find(xml, SourceMarker)
    case None => None
    case Some(p) => Some(QuoteFreeRun(xml[p + |SourceMarker|..], DiskPathLimit))
  }

  /** The image path the clone gets: `/var/lib/libvirt/images/<dst>.qcow2`. */
  function NewDiskPath(dst: string): (r: string)
    ensures |r| == |ImagesDir| + |dst| + |ImageSuffix|
    ensures r[..|ImagesDir|] == ImagesDir
    ensures r[|r| - |ImageSuffix|..] == ImageSuffix
    ensures r[|ImagesDir|..|r| - |ImageSuffix|] == dst
  {
    var r := ImagesDir + dst + ImageSuffix;
    assert r[|ImagesDir|..|r| - |ImageSuffix|] == dst;
    r
  }

  /** The clone name an image path under the images directory was made from, if it is one. */
  function ImageBaseName(path: string): (r: Option<string>)
    ensures r.Some? ==> NewDiskPath(r.value) == path
  {
    if |path| >= |ImagesDir| + |ImageSuffix| && path[..|ImagesDir|] == ImagesDir
       && path[|path| - |ImageSuffix|..] == ImageSuffix
    then
      var base := path[|ImagesDir|..|path| - |ImageSuffix|];
      assert path == path[..|ImagesDir|] + base + path[|path| - |ImageSuffix|..];
      Some(base)
    else None
  }

  /** Reading the clone name back from its image path gives the name: distinct clones get distinct images. */
  lemma ImageBaseNameOfNewDiskPath(dst: string)
    ensures ImageBaseName(NewDiskPath(dst)) == Some(dst)
  {
    var path := NewDiskPath(dst);
    assert path[|ImagesDir|..|path| - |ImageSuffix|] == dst;
  }

  // ---------------------------------------------------------------------------------------
  // Elements: the first opening tag and the next closing tag after it
  // ---------------------------------------------------------------------------------------

  /** A stretch `[start, end)` of the text, from the first byte of a tag to the last of its closing tag. */
  datatype Span = Span(start: nat, end: nat)

  /** A match in a suffix is a match in the whole text, shifted by the suffix's offset. */
  lemma MatchInSuffix(s: string, i: nat, pat: string)
    requires i <= |s|
    ensures forall j :: 0 <= j ==> (MatchAt(s[i..], pat, j) <==> MatchAt(s, pat, i + j))
  {
    forall j | 0 <= j
      ensures MatchAt(s[i..], pat, j) <==> MatchAt(s, pat, i + j)
    {
      assert s[..i] + s[i..] == s;
      MatchShift(s[..i], s[i..], pat, j);
    }
  }

  /**
   * The element located the way the C code does it: `strstr` for the opening tag, then `strstr`
   * for the closing tag starting from the opening tag.
   */
  function FindElement(xml: string, open: string, close: string): (r: Option<Span>)
    ensures r.Some? ==> Find(xml, open) == Some(r.value.start)
    ensures r.Some? ==> r.value.start <= r.value.end - |close| && MatchAt(xml, close, r.value.end - |close|)
    ensures r.Some? ==> forall k :: r.value.start <= k < r.value.end - |close| ==> !MatchAt(xml, close, k)
    ensures r.None? <==> Find(xml, open).None? || !Occurs(close, xml[Find(xml, open).value..])
  {
    match Find(xml, open)
    case None => None
    case Some(i) =>
      match Find(xml[i..], close)
      case None => None
      case Some(j) =>
        FirstInSuffix(xml, i, close, j);
        Some(Span(i, i + j + |close|))
  }

  /** The leftmost match in a suffix, read as a position in the whole text. */
  lemma FirstInSuffix(xml: string, i: nat, pat: string, j: nat)
    requires i <= |xml| && Find(xml[i..], pat) == Some(j)
    ensures MatchAt(xml, pat, i + j)
    ensures forall k :: i <= k < i + j ==> !MatchAt(xml, pat, k)
  {
    MatchInSuffix(xml, i, pat);
    forall k | i <= k < i + j
      ensures !MatchAt(xml, pat, k)
    {
      assert !MatchAt(xml[i..], pat, k - i);
    }
  }

  /** The element is determined by the two searches. */
  lemma FindElementOf(xml: string, open: string, close: string, i: nat, j: nat)
    requires Find(xml, open) == Some(i) && Find(xml[i..], close) == Some(j)
    ensures FindElement(xml, open, close) == Some(Span(i, i + j + |close|))
  {
  }

  /** The text between the element's tags. */
  function ElementText(xml: string, open: string, close: string): Option<string> {
    match FindElement(xml, open, close)
    case None => None
    case Some(sp) =>
      if sp.start + |open| <= sp.end - |close| then Some(xml[sp.start + |open|..sp.end - |close|]) else None
  }

  /** The four tags involved are tags whose opening and closing forms differ in their second character. */
  lemma TagsWellFormed()
    ensures Tag(NameOpen) && Tag(NameClose) && NameOpen[1] != NameClose[1]
    ensures Tag(UuidOpen) && Tag(UuidClose) && UuidOpen[1] != UuidClose[1]
  {
  }

  /** Text before the first occurrence of a pattern does not contain the pattern. */
  lemma NoMatchBeforeFirst(xml: string, pat: string, p: nat)
    requires |pat| > 0 && Find(xml, pat) == Some(p)
    ensures !Occurs(pat, xml[..p])
  {
    forall j | 0 <= j <= p
      ensures !MatchAt(xml[..p], pat, j)
    {
      if j + |pat| <= p {
        assert xml[..p] + xml[p..] == xml;
        MatchPrefix(xml[..p], xml[p..], pat, j);
        assert !MatchAt(xml, pat, j);
      }
    }
  }

  /**
   * In `a + open + n + close + b`, with no opening tag in `a` and no closing tag in `n`, the
   * element found is exactly the written one.
   */
  lemma ElementAt(a: string, open: string, n: string, close: string, b: string)
    requires Tag(open) && Tag(close) && open[1] != close[1]
    requires !Occurs(open, a) && !Occurs(close, n)
    ensures FindElement(a + open + n + close + b, open, close)
         == Some(Span(|a|, |a| + |open| + |n| + |close|))
  {
    TagsAt(a, open, n, close, b);
    FindElementOf(a + open + n + close + b, open, close, |a|, |open| + |n|);
  }

  /** Both searches `FindElement` makes land on the written tags. */
  lemma TagsAt(a: string, open: string, n: string, close: string, b: string)
    requires Tag(open) && Tag(close) && open[1] != close[1]
    requires !Occurs(open, a) && !Occurs(close, n)
    ensures Find(a + open + n + close + b, open) == Some(|a|)
    ensures Find((a + open + n + close + b)[|a|..], close) == Some(|open| + |n|)
  {
    OpenTagAt(a, open, n, close, b);
    CloseTagAt(a, open, n, close, b);
  }

  lemma OpenTagAt(a: string, open: string, n: string, close: string, b: string)
    requires Tag(open) && !Occurs(open, a)
    ensures Find(a + open + n + close + b, open) == Some(|a|)
  {
    OpenAt(a, open, n + close + b);
    assert a + open + (n + close + b) == a + open + n + close + b;
  }

  lemma CloseTagAt(a: string, open: string, n: string, close: string, b: string)
    requires Tag(open) && Tag(close) && open[1] != close[1] && !Occurs(close, n)
    ensures Find((a + open + n + close + b)[|a|..], close) == Some(|open| + |n|)
  {
    CloseAt(open, n, close, b);
    assert (a + open + n + close + b)[|a|..] == open + n + close + b;
  }

  /** The first opening tag of `a + open + rest` is the written one. */
  lemma OpenAt(a: string, open: string, rest: string)
    requires Tag(open) && !Occurs(open, a)
    ensures Find(a + open + rest, open) == Some(|a|)
  {
    assert (open + rest)[..|open|] == open;
    FindAtBoundary(a, open + rest, open);
    assert a + (open + rest) == a + open + rest;
  }

  /** After an opening tag, the first closing tag is the one after the text `n` that holds none. */
  lemma CloseAt(open: string, n: string, close: string, b: string)
    requires Tag(open) && Tag(close) && open[1] != close[1] && !Occurs(close, n)
    ensures Find(open + n + close + b, close) == Some(|open| + |n|)
  {
    NoCloseAfterOpen(open, close, n);
    assert (close + b)[..|close|] == close;
    FindAtBoundary(open + n, close + b, close);
    assert (open + n) + (close + b) == open + n + close + b;
  }

  /** ... and its text is exactly `n`. */
  lemma ElementTextAt(a: string, open: string, n: string, close: string, b: string)
    requires Tag(open) && Tag(close) && open[1] != close[1]
    requires !Occurs(open, a) && !Occurs(close, n)
    ensures ElementText(a + open + n + close + b, open, close) == Some(n)
  {
    ElementAt(a, open, n, close, b);
    MiddleSlice(a, open, n, close, b);
  }

  lemma MiddleSlice(a: string, open: string, n: string, close: string, b: string)
    ensures (a + open + n + close + b)[|a| + |open|..|a| + |open| + |n|] == n
  {
    assert (a + open + n + close + b)[|a| + |open|..] == n + close + b;
  }

  // ---------------------------------------------------------------------------------------
  // Name rewrite and UUID removal
  // ---------------------------------------------------------------------------------------

  /**
   * The `<name>` rewrite (libvirt_api.c:596-604): the first `<name>…</name>` span becomes
   * `<name>dst</name>`; nothing before or after it changes; without both tags nothing changes.
   */
  function RewriteName(xml: string, dst: string): (r: string)
    ensures FindElement(xml, NameOpen, NameClose).None? ==> r == xml
    ensures FindElement(xml, NameOpen, NameClose).Some? ==>
      var sp := FindElement(xml, NameOpen, NameClose).value;
      && |r| == |xml| - (sp.end - sp.start) + |NameOpen| + |dst| + |NameClose|
      && r[..sp.start] == xml[..sp.start]
      && r[|r| - (|xml| - sp.end)..] == xml[sp.end..]
      && r[sp.start..|r| - (|xml| - sp.end)] == NameOpen + dst + NameClose
  {
    match FindElement(xml, NameOpen, NameClose)
    case None => xml
    case Some(sp) =>
      var r := xml[..sp.start] + NameOpen + dst + NameClose + xml[sp.end..];
      assert r[|r| - (|xml| - sp.end)..] == xml[sp.end..];
      assert r[sp.start..|r| - (|xml| - sp.end)] == NameOpen + dst + NameClose;
      r
  }

  /** After the rewrite the descriptor's name reads back as `dst`, and rewriting again changes nothing. */
  lemma RewriteNameReadsBack(xml: string, dst: string)
    requires FindElement(xml, NameOpen, NameClose).Some?
    requires !Occurs(NameClose, dst)
    ensures ElementText(RewriteName(xml, dst), NameOpen, NameClose) == Some(dst)
    ensures RewriteName(RewriteName(xml, dst), dst) == RewriteName(xml, dst)
  {
    var sp := FindElement(xml, NameOpen, NameClose).value;
    var a := xml[..sp.start];
    var b := xml[sp.end..];
    TagsWellFormed();
    NoMatchBeforeFirst(xml, NameOpen, sp.start);
    assert RewriteName(xml, dst) == a + NameOpen + dst + NameClose + b;
    ElementAt(a, NameOpen, dst, NameClose, b);
    ElementTextAt(a, NameOpen, dst, NameClose, b);
  }

  /** Rewriting the name of a descriptor laid out as `a<name>n</name>b` replaces exactly `n`. */
  lemma RewriteNameOfElement(a: string, n: string, b: string, dst: string)
    requires !Occurs(NameOpen, a) && !Occurs(NameClose, n)
    ensures RewriteName(a + NameOpen + n + NameClose + b, dst) == a + NameOpen + dst + NameClose + b
  {
    var xml := a + NameOpen + n + NameClose + b;
    TagsWellFormed();
    ElementAt(a, NameOpen, n, NameClose, b);
    assert xml[..|a|] == a;
    assert xml[|a| + |NameOpen| + |n| + |NameClose|..] == b;
  }

  /**
   * The UUID removal (libvirt_api.c:606-613): exactly the first `<uuid>` through the next
   * `</uuid>` disappears; without both tags nothing changes.
   */
  function RemoveUuid(xml: string): (r: string)
    ensures FindElement(xml, UuidOpen, UuidClose).None? ==> r == xml
    ensures FindElement(xml, UuidOpen, UuidClose).Some? ==>
      var sp := FindElement(xml, UuidOpen, UuidClose).value;
      && |r| == |xml| - (sp.end - sp.start)
      && r[..sp.start] == xml[..sp.start]
      && r[sp.start..] == xml[sp.end..]
  {
    match FindElement(xml, UuidOpen, UuidClose)
    case None => xml
    case Some(sp) => xml[..sp.start] + xml[sp.end..]
  }

  /** Removing the UUID from `a<uuid>u</uuid>b` gives back `a + b`: the removal undoes an insertion. */
  lemma RemoveUuidOfElement(a: string, u: string, b: string)
    requires !Occurs(UuidOpen, a) && !Occurs(UuidClose, u)
    ensures RemoveUuid(a + UuidOpen + u + UuidClose + b) == a + b
  {
    var xml := a + UuidOpen + u + UuidClose + b;
    TagsWellFormed();
    ElementAt(a, UuidOpen, u, UuidClose, b);
    assert xml[..|a|] == a;
    assert xml[|a| + |UuidOpen| + |u| + |UuidClose|..] == b;
  }

  // ---------------------------------------------------------------------------------------
  // Disk path substitution
  // ---------------------------------------------------------------------------------------

  /** Putting `new` in place of the occurrence of `old` at `p`: what one pass of the loop means to do. */
  function ReplaceAt(s: string, p: nat, oldPath: string, newPath: string): (r: string)
    requires MatchAt(s, oldPath, p)
    ensures |r| == |s| - |oldPath| + |newPath|
    ensures r[..p] == s[..p] && MatchAt(r, newPath, p) && r[p + |newPath|..] == s[p + |oldPath|..]
  {
    var r := s[..p] + newPath + s[p + |oldPath|..];
    assert r[p..p + |newPath|] == newPath;
    r
  }

  /** Putting the old text back where the new one went restores the original. */
  lemma ReplaceAtUndo(s: string, p: nat, oldPath: string, newPath: string)
    requires MatchAt(s, oldPath, p)
    ensures ReplaceAt(ReplaceAt(s, p, oldPath, newPath), p, newPath, oldPath) == s
  {
    var r := ReplaceAt(s, p, oldPath, newPath);
    var t := ReplaceAt(r, p, newPath, oldPath);
    assert t == s[..p] + s[p..p + |oldPath|] + s[p + |oldPath|..];
    assert s == s[..p] + s[p..p + |oldPath|] + s[p + |oldPath|..];
  }

  /**
   * One pass of the loop as written (libvirt_api.c:617-620): `new` is copied over the buffer
   * first and the tail is moved afterwards, so when `new` is longer than `old` the first
   * `|new| - |old|` characters of the tail are overwritten before they are moved. When the tail
   * is shorter than that, the terminating NUL is overwritten too and the result depends on the
   * buffer's previous contents (`None`).
   */
  function ReplaceAtAsWritten(s: string, p: nat, oldPath: string, newPath: string): (r: Option<string>)
    requires MatchAt(s, oldPath, p)
    ensures |newPath| <= |oldPath| ==> r == Some(ReplaceAt(s, p, oldPath, newPath))
    ensures r.Some? ==> |r.value| == |s| - |oldPath| + |newPath| && r.value[..p + |newPath|] == s[..p] + newPath
    ensures r.None? <==> |newPath| > |oldPath| && |s| - (p + |oldPath|) < |newPath| - |oldPath|
    ensures r.Some? && |newPath| > |oldPath| ==>
      p + |newPath| <= |s| && r.value[p + |newPath|..] == newPath[|oldPath|..] + s[p + |oldPath| + (|newPath| - |oldPath|)..]
  {
    var tail := s[p + |oldPath|..];
    if |newPath| <= |oldPath| then Some(s[..p] + newPath + tail)
    else if |tail| < |newPath| - |oldPath| then None
    else
      var r := s[..p] + newPath + newPath[|oldPath|..] + tail[|newPath| - |oldPath|..];
      assert r[..p + |newPath|] == s[..p] + newPath;
      assert r[p + |newPath|..] == newPath[|oldPath|..] + tail[|newPath| - |oldPath|..];
      Some(r)
  }

  /**
   * When the new path is longer, the pass as written agrees with the intended replacement only
   * if the overwritten start of the tail happened to equal the end of the new path.
   */
  lemma AsWrittenAgreesOnlyByAccident(s: string, p: nat, oldPath: string, newPath: string)
    requires MatchAt(s, oldPath, p)
    requires |newPath| > |oldPath| && |s| - (p + |oldPath|) >= |newPath| - |oldPath|
    ensures ReplaceAtAsWritten(s, p, oldPath, newPath) == Some(ReplaceAt(s, p, oldPath, newPath))
        <==> s[p + |oldPath|..p + |newPath|] == newPath[|oldPath|..]
  {
    var w := ReplaceAtAsWritten(s, p, oldPath, newPath).value;
    var g := |newPath| - |oldPath|;
    var tail := s[p + |oldPath|..];
    assert s[p + |oldPath|..p + |newPath|] == tail[..g];
    assert w == s[..p] + newPath + newPath[|oldPath|..] + tail[g..];
    assert ReplaceAt(s, p, oldPath, newPath) == s[..p] + newPath + tail[..g] + tail[g..];
    if w == ReplaceAt(s, p, oldPath, newPath) {
      assert w[p + |newPath|..p + |newPath| + g] == newPath[|oldPath|..];
      assert ReplaceAt(s, p, oldPath, newPath)[p + |newPath|..p + |newPath| + g] == tail[..g];
    }
  }

  /**
   * A concrete descriptor on which the pass as written corrupts the text: the old image
   * `a.qcow2` is one character shorter than the clone's `bb.qcow2`, so the closing quote of the
   * attribute is overwritten by the path's last character.
   */
  lemma AsWrittenCorruptsAttribute()
    ensures var oldPath := ImagesDir + "a" + ImageSuffix;
      var s := SourceMarker + oldPath + "'/>";
      MatchAt(s, oldPath, |SourceMarker|)
      && ReplaceAtAsWritten(s, |SourceMarker|, oldPath, NewDiskPath("bb"))
         == Some(SourceMarker + NewDiskPath("bb") + "2/>")
      && ReplaceAt(s, |SourceMarker|, oldPath, NewDiskPath("bb")) == SourceMarker + NewDiskPath("bb") + "'/>"
  {
    var oldPath := ImagesDir + "a" + ImageSuffix;
    var s := SourceMarker + oldPath + "'/>";
    assert s[|SourceMarker|..|SourceMarker| + |oldPath|] == oldPath;
    assert s[|SourceMarker| + |oldPath|..] == "'/>";
    assert s[..|SourceMarker|] == SourceMarker;
    var newPath := NewDiskPath("bb");
    assert newPath[|oldPath|..] == "2";
    assert "'/>"[|newPath| - |oldPath|..] == "/>";
    assert ReplaceAtAsWritten(s, |SourceMarker|, oldPath, newPath)
        == Some(SourceMarker + newPath + "2" + "/>");
    assert SourceMarker + newPath + "2" + "/>" == SourceMarker + newPath + "2/>";
    assert ReplaceAt(s, |SourceMarker|, oldPath, newPath) == SourceMarker + newPath + "'/>";
  }

  /**
   * The substitution loop (libvirt_api.c:615-621): `strstr` restarts from the beginning of the
   * text after every replacement, and the loop exits only when the old path no longer occurs.
   * It need not exit, so `fuel` bounds the number of replacements; `None` means the loop had
   * not exited after `fuel` of them.
   */
  function ReplaceLoop(s: string, oldPath: string, newPath: string, fuel: nat): (r: Option<string>)
    ensures r.Some? ==> !Occurs(oldPath, r.value)
    ensures !Occurs(oldPath, s) ==> r == Some(s)
    decreases fuel
  {
    match Find(s, oldPath)
    case None => Some(s)
    case Some(p) =>
      if fuel == 0 then None else ReplaceLoop(ReplaceAt(s, p, oldPath, newPath), oldPath, newPath, fuel - 1)
  }

  /** An exit found with some fuel is found, with the same text, with any more fuel. */
  lemma {:induction false} ReplaceLoopMoreFuel(s: string, oldPath: string, newPath: string, fuel: nat, more: nat)
    requires fuel <= more
    requires ReplaceLoop(s, oldPath, newPath, fuel).Some?
    ensures ReplaceLoop(s, oldPath, newPath, more) == ReplaceLoop(s, oldPath, newPath, fuel)
    decreases fuel
  {
    match Find(s, oldPath)
    case None =>
    case Some(p) =>
      ReplaceLoopMoreFuel(ReplaceAt(s, p, oldPath, newPath), oldPath, newPath, fuel - 1, more - 1);
  }

  /**
   * When the new path contains the old one, every replacement puts the old path back, so the
   * loop never exits once the old path occurs at all. The empty path occurs in every text, so
   * an empty old path also loops forever.
   */
  lemma {:induction false} ReplaceLoopDiverges(s: string, oldPath: string, newPath: string, fuel: nat)
    requires Occurs(oldPath, newPath) && Occurs(oldPath, s)
    ensures ReplaceLoop(s, oldPath, newPath, fuel) == None
    decreases fuel
  {
    match Find(s, oldPath)
    case Some(p) =>
      if fuel > 0 {
        ReplaceKeepsOld(s, p, oldPath, newPath);
        ReplaceLoopDiverges(ReplaceAt(s, p, oldPath, newPath), oldPath, newPath, fuel - 1);
      }
  }

  /** A replacement by a path containing the old one leaves an occurrence of the old one. */
  lemma ReplaceKeepsOld(s: string, p: nat, oldPath: string, newPath: string)
    requires MatchAt(s, oldPath, p) && Occurs(oldPath, newPath)
    ensures Occurs(oldPath, ReplaceAt(s, p, oldPath, newPath))
  {
    assert ReplaceAt(s, p, oldPath, newPath) == s[..p] + newPath + s[p + |oldPath|..];
    OccursInMiddle(s[..p], newPath, s[p + |oldPath|..], oldPath);
  }

  /** When the new path is shorter, every replacement shortens the text, so `|s|` passes suffice. */
  lemma {:induction false} ReplaceLoopExitsWhenShrinking(s: string, oldPath: string, newPath: string, fuel: nat)
    requires |newPath| < |oldPath|
    requires fuel >= |s|
    ensures ReplaceLoop(s, oldPath, newPath, fuel).Some?
    decreases |s|
  {
    match Find(s, oldPath)
    case None =>
    case Some(p) =>
      var t := ReplaceAt(s, p, oldPath, newPath);
      ReplaceLoopExitsWhenShrinking(t, oldPath, newPath, fuel - 1);
  }

  /**
   * One pass of the loop: the leftmost occurrence, at `|a|`, gives way to the new path, the
   * text on both sides of it stays as it was, and the search starts again from the beginning.
   */
  lemma ReplaceLoopStep(a: string, b: string, oldPath: string, newPath: string, fuel: nat)
    requires Find(a + oldPath + b, oldPath) == Some(|a|)
    requires fuel >= 1
    ensures ReplaceLoop(a + oldPath + b, oldPath, newPath, fuel)
         == ReplaceLoop(a + newPath + b, oldPath, newPath, fuel - 1)
  {
    var s := a + oldPath + b;
    assert s[..|a|] == a;
    assert s[|a| + |oldPath|..] == b;
    assert ReplaceAt(s, |a|, oldPath, newPath) == a + newPath + b;
  }

  /**
   * A text with one occurrence of the old path, whose replacement leaves none behind, comes
   * out of the loop after one pass as the same text with the new path in its place.
   */
  lemma ReplaceLoopOnce(a: string, b: string, oldPath: string, newPath: string, fuel: nat)
    requires Find(a + oldPath + b, oldPath) == Some(|a|)
    requires !Occurs(oldPath, a + newPath + b)
    requires fuel >= 1
    ensures ReplaceLoop(a + oldPath + b, oldPath, newPath, fuel) == Some(a + newPath + b)
  {
    ReplaceLoopStep(a, b, oldPath, newPath, fuel);
  }

  // ---------------------------------------------------------------------------------------
  // The whole rewrite
  // ---------------------------------------------------------------------------------------

  /**
   * The descriptor `clone_vm` hands to `virDomainDefineXML` (libvirt_api.c:593-621): name
   * rewritten, UUID removed, then every occurrence of the old disk path substituted. `None`
   * when the substitution loop has not exited within `fuel` replacements.
   */
  function CloneDescriptor(xml: string, dst: string, oldDisk: string, fuel: nat): (r: Option<string>)
    ensures r.Some? ==> !Occurs(oldDisk, r.value)
    ensures !Occurs(oldDisk, RemoveUuid(RewriteName(xml, dst))) ==> r == Some(RemoveUuid(RewriteName(xml, dst)))
  {
    ReplaceLoop(RemoveUuid(RewriteName(xml, dst)), oldDisk, NewDiskPath(dst), fuel)
  }

  /**
   * The descriptor of a single-disk domain, `p<name>n</name>q<uuid>u</uuid>r` followed by the
   * disk path and the rest `t`, comes out as `p<name>dst</name>qr`, the clone's image path and
   * `t`: renamed, without its UUID, with the disk path substituted in place and nothing else
   * changed.
   */
  lemma CloneDescriptorOfLayout(p: string, n: string, q: string, u: string, r: string, t: string,
                                dst: string, oldDisk: string, fuel: nat)
    requires !Occurs(NameOpen, p) && !Occurs(NameClose, n)
    requires !Occurs(UuidOpen, p + NameOpen + dst + NameClose + q) && !Occurs(UuidClose, u)
    requires Find(p + NameOpen + dst + NameClose + q + r + oldDisk + t, oldDisk)
          == Some(|p + NameOpen + dst + NameClose + q + r|)
    requires !Occurs(oldDisk, p + NameOpen + dst + NameClose + q + r + NewDiskPath(dst) + t)
    requires fuel >= 1
    ensures CloneDescriptor(p + NameOpen + n + NameClose + q + UuidOpen + u + UuidClose + r + oldDisk + t,
                            dst, oldDisk, fuel)
         == Some(p + NameOpen + dst + NameClose + q + r + NewDiskPath(dst) + t)
  {
    var named := p + NameOpen + dst + NameClose + q;
    NameAndUuidOfLayout(p, n, q, u, r + oldDisk + t, dst);
    AppendAssoc3(p + NameOpen + n + NameClose + q + UuidOpen + u + UuidClose, r, oldDisk, t);
    AppendAssoc3(named, r, oldDisk, t);
    ReplaceLoopOnce(named + r, t, oldDisk, NewDiskPath(dst), fuel);
  }

  /** The name and UUID steps on `p<name>n</name>q<uuid>u</uuid>rest` give `p<name>dst</name>q` then `rest`. */
  lemma NameAndUuidOfLayout(p: string, n: string, q: string, u: string, rest: string, dst: string)
    requires !Occurs(NameOpen, p) && !Occurs(NameClose, n)
    requires !Occurs(UuidOpen, p + NameOpen + dst + NameClose + q) && !Occurs(UuidClose, u)
    ensures RemoveUuid(RewriteName(p + NameOpen + n + NameClose + q + UuidOpen + u + UuidClose + rest, dst))
         == p + NameOpen + dst + NameClose + q + rest
  {
    var tail := q + UuidOpen + u + UuidClose + rest;
    Regroup(p + NameOpen + n + NameClose, q, UuidOpen, u, UuidClose, rest);
    RewriteNameOfElement(p, n, tail, dst);
    Regroup(p + NameOpen + dst + NameClose, q, UuidOpen, u, UuidClose, rest);
    RemoveUuidOfElement(p + NameOpen + dst + NameClose + q, u, rest);
  }

  /** `x + (q + o + u + c + rest)` regrouped to the left. */
  lemma Regroup(x: string, q: string, o: string, u: string, c: string, rest: string)
    ensures x + (q + o + u + c + rest) == x + q + o + u + c + rest
  {
  }

  /** `(x + r) + d + t` and `x + (r + d + t)` spell the same text. */
  lemma AppendAssoc3(x: string, r: string, d: string, t: string)
    ensures x + (r + d + t) == (x + r) + d + t
  {
  }

  /** When the clone's image path contains the old path, the rewrite never finishes once the old path survives the name and UUID steps. */
  lemma CloneDescriptorDiverges(xml: string, dst: string, oldDisk: string, fuel: nat)
    requires Occurs(oldDisk, NewDiskPath(dst)) && Occurs(oldDisk, RemoveUuid(RewriteName(xml, dst)))
    ensures CloneDescriptor(xml, dst, oldDisk, fuel) == None
  {
    ReplaceLoopDiverges(RemoveUuid(RewriteName(xml, dst)), oldDisk, NewDiskPath(dst), fuel);
  }
}
