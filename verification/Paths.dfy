/** Paths: splitting into Uri-Path options and joining back (section 5.10.1 of RFC 7252), `:param` templates and
    resource lookup. Strings are the bytes before the terminating NUL. */
module Paths {
  import opened Types
  import opened Config
  import opened Codec
  import opened MessageObject

  const SLASH: byte := 47
  const COLON: byte := 58

  /** The first index at or after `i` that is a slash or the end of the string. */
  function SegEnd(s: seq<byte>, i: nat := 0): (r: nat)
    requires i <= |s|
    ensures i <= r <= |s| && (r < |s| ==> s[r] == SLASH)
    ensures forall j :: i <= j < r ==> s[j] != SLASH
    decreases |s| - i
  {
    if i == |s| || s[i] == SLASH then i else SegEnd(s, i + 1)
  }

  method ScanSegment(s: seq<byte>, i: nat) returns (end: nat)
    requires i <= |s|
    ensures end == SegEnd(s, i)
  {
    end := i;
    while end < |s| && s[end] != SLASH
      invariant i <= end <= |s| && SegEnd(s, i) == SegEnd(s, end)
    {
      end := end + 1;
    }
  }

  /** All segments of a path, empty ones included: n slashes give n + 1 segments. */
  function Split(s: seq<byte>): (segs: seq<seq<byte>>)
    ensures segs != []
  {
    var e := SegEnd(s);
    if e == |s| then [s] else [s[..e]] + Split(s[e + 1..])
  }

  function JoinSegments(segs: seq<seq<byte>>): seq<byte>
    requires segs != []
  {
    if |segs| == 1 then segs[0] else segs[0] + [SLASH] + JoinSegments(segs[1..])
  }

  lemma {:induction false} JoinSplit(s: seq<byte>)
    ensures JoinSegments(Split(s)) == s
    decreases |s|
  {
    var e := SegEnd(s);
    if e < |s| {
      JoinSplit(s[e + 1..]);
      assert Split(s)[1..] == Split(s[e + 1..]);
      assert s == s[..e] + [SLASH] + s[e + 1..];
    }
  }

  lemma SegEndIs(s: seq<byte>, i: nat, r: nat)
    requires i <= r <= |s| && (r < |s| ==> s[r] == SLASH) && forall j :: i <= j < r ==> s[j] != SLASH
    ensures SegEnd(s, i) == r
  {
  }

  lemma SplitOnce(s: seq<byte>)
    ensures var e := SegEnd(s); Split(s) == if e == |s| then [s] else [s[..e]] + Split(s[e + 1..])
  {
    hide SegEnd;
  }

  /** At a slash. */
  lemma SplitAtSlash(s: seq<byte>, i: nat)
    requires i < |s| && s[i] == SLASH
    ensures Split(s[i..]) == [[]] + Split(s[i + 1..])
  {
    hide Split, SegEnd;
    SegEndIs(s[i..], 0, 0);
    SplitOnce(s[i..]);
    assert s[i..][..0] == [] && s[i..][1..] == s[i + 1..];
  }

  /** At the first byte of a non-empty segment that ends at `e`: consuming it leaves an empty segment in its place. */
  lemma SplitAtSegment(s: seq<byte>, i: nat, e: nat)
    requires i <= |s| && e == SegEnd(s, i)
    ensures Split(s[i..])[0] == s[i..e]
    ensures Split(s[e..]) == [[]] + Split(s[i..])[1..]
  {
    hide Split, SegEnd;
    SegEndIs(s[i..], 0, e - i);
    SplitOnce(s[i..]);
    assert s[i..][..e - i] == s[i..e];
    if e < |s| {
      SplitAtSlash(s, e);
      assert s[i..][e - i + 1..] == s[e + 1..];
    } else {
      SplitEnd(s);
    }
  }

  lemma SplitEnd(s: seq<byte>)
    ensures Split(s[|s|..]) == [[]]
  {
  }

  // ------------------------------------------------------------------ templates

  datatype PathParam = PathParam(name: seq<byte>, value: seq<byte>)

  predicate IsParam(seg: seq<byte>) {
    seg != [] && seg[0] == COLON
  }

  predicate SegmentMatches(t: seq<byte>, p: seq<byte>) {
    if IsParam(t) then p != [] else t == p
  }

  predicate MatchSegments(ts: seq<seq<byte>>, ps: seq<seq<byte>>) {
    if ts == [] || ps == [] then ts == [] && ps == []
    else SegmentMatches(ts[0], ps[0]) && MatchSegments(ts[1..], ps[1..])
  }

  predicate Matches(tmpl: seq<byte>, path: seq<byte>) {
    MatchSegments(Split(tmpl), Split(path))
  }

  /** What fits in a fixed-size parameter string. */
  function Clip(s: seq<byte>): seq<byte> {
    if |s| < MAX_PATH_PARAM_LEN - 1 then s else s[..MAX_PATH_PARAM_LEN - 1]
  }

  function Capture(t: seq<byte>, p: seq<byte>): seq<PathParam> {
    if IsParam(t) then [PathParam(Clip(t[1..]), Clip(p))] else []
  }

  function Captures(ts: seq<seq<byte>>, ps: seq<seq<byte>>): (r: seq<PathParam>)
    ensures |r| <= CountParams(ts)
  {
    if ts == [] || ps == [] then []
    else Capture(ts[0], ps[0]) + Captures(ts[1..], ps[1..])
  }

  function CountParams(ts: seq<seq<byte>>): nat {
    if ts == [] then 0 else (if IsParam(ts[0]) then 1 else 0) + CountParams(ts[1..])
  }

  lemma ConsMatch(t: seq<byte>, ts: seq<seq<byte>>, p: seq<byte>, ps: seq<seq<byte>>)
    ensures MatchSegments([t] + ts, [p] + ps) == (SegmentMatches(t, p) && MatchSegments(ts, ps))
    ensures Captures([t] + ts, [p] + ps) == Capture(t, p) + Captures(ts, ps)
    ensures CountParams([t] + ts) == (if IsParam(t) then 1 else 0) + CountParams(ts)
  {
    assert ([t] + ts)[1..] == ts && ([p] + ps)[1..] == ps;
  }

  /** The result of matching from two cursors on. */
  predicate MatchFrom(tmpl: seq<byte>, i: nat, path: seq<byte>, j: nat)
    requires i <= |tmpl| && j <= |path|
  {
    MatchSegments(Split(tmpl[i..]), Split(path[j..]))
  }

  function CapturesFrom(tmpl: seq<byte>, i: nat, path: seq<byte>, j: nat): seq<PathParam>
    requires i <= |tmpl| && j <= |path|
  {
    Captures(Split(tmpl[i..]), Split(path[j..]))
  }

  lemma BothSlash(tmpl: seq<byte>, i: nat, path: seq<byte>, j: nat)
    requires i < |tmpl| && j < |path| && tmpl[i] == SLASH == path[j]
    ensures MatchFrom(tmpl, i, path, j) == MatchFrom(tmpl, i + 1, path, j + 1)
    ensures CapturesFrom(tmpl, i, path, j) == CapturesFrom(tmpl, i + 1, path, j + 1)
  {
    SplitAtSlash(tmpl, i);
    SplitAtSlash(path, j);
    ConsMatch([], Split(tmpl[i + 1..]), [], Split(path[j + 1..]));
  }

  /** One cursor at a slash or the end of its string, the other not at the same. */
  lemma OneEnds(tmpl: seq<byte>, i: nat, path: seq<byte>, j: nat)
    requires i <= |tmpl| && j <= |path|
    requires (i == |tmpl| || tmpl[i] == SLASH || j == |path|)
    requires (i == |tmpl| ==> j < |path|) && (j == |path| ==> i < |tmpl|)
    requires !(i < |tmpl| && j < |path| && tmpl[i] == path[j])
    ensures !MatchFrom(tmpl, i, path, j)
  {
    var et, ep := SegEnd(tmpl, i), SegEnd(path, j);
    SplitAtSegment(tmpl, i, et);
    SplitAtSegment(path, j, ep);
    var ts, ps := Split(tmpl[i..]), Split(path[j..]);
    assert ts == [ts[0]] + ts[1..] && ps == [ps[0]] + ps[1..];
    ConsMatch(ts[0], ts[1..], ps[0], ps[1..]);
    if SegmentMatches(ts[0], ps[0]) {
      assert et == i && ep == j;
      if i == |tmpl| { SplitEnd(tmpl); SplitAtSlash(path, j); }
      if j == |path| { SplitEnd(path); SplitAtSlash(tmpl, i); }
    }
  }

  lemma EmptySegments()
    ensures SegmentMatches([], []) && Capture([], []) == []
  {
  }

  lemma BothSegment(tmpl: seq<byte>, i: nat, et: nat, path: seq<byte>, j: nat, ep: nat)
    requires i <= |tmpl| && j <= |path| && et == SegEnd(tmpl, i) && ep == SegEnd(path, j)
    ensures var t, p := tmpl[i..et], path[j..ep];
            && MatchFrom(tmpl, i, path, j) == (SegmentMatches(t, p) && MatchFrom(tmpl, et, path, ep))
            && CapturesFrom(tmpl, i, path, j) == Capture(t, p) + CapturesFrom(tmpl, et, path, ep)
  {
    hide Split, SegEnd, SegmentMatches, Captures, Capture, MatchSegments;
    SplitAtSegment(tmpl, i, et);
    SplitAtSegment(path, j, ep);
    EmptySegments();
    var ts, ps := Split(tmpl[i..])[1..], Split(path[j..])[1..];
    assert Split(tmpl[i..]) == [tmpl[i..et]] + ts && Split(path[j..]) == [path[j..ep]] + ps;
    ConsMatch(tmpl[i..et], ts, path[j..ep], ps);
    ConsMatch([], ts, [], ps);
  }

  /** One pair of segments: equal, or a parameter and something to capture. */
  method MatchSegment(t: seq<byte>, p: seq<byte>) returns (same: bool, got: seq<PathParam>)
    ensures same <==> SegmentMatches(t, p)
    ensures same ==> got == Capture(t, p)
  {
    hide Clip;
    if t != [] && t[0] == COLON {
      if p == [] { return false, []; }
      return true, [PathParam(Clip(t[1..]), Clip(p))];
    }
    return t == p, [];
  }

  /** The cursor loop accepts exactly the paths whose segments match, and reports the clipped captures in order. The
      template may not have more parameters than `maxParams`, since the reported count is not clamped. */
  method MatchTemplate(tmpl: seq<byte>, path: seq<byte>, maxParams: nat)
    returns (ok: bool, params: seq<PathParam>, count: nat)
    requires CountParams(Split(tmpl)) <= maxParams
    ensures ok <==> Matches(tmpl, path)
    ensures ok ==> params == Captures(Split(tmpl), Split(path)) && count == |params| <= maxParams
  {
    hide Split, Matches, MatchFrom, CapturesFrom, Captures, SegmentMatches, CountParams, SegEnd;
    params, count := [], 0;
    var t, p := 0, 0;
    assert tmpl[0..] == tmpl && path[0..] == path;
    StartOfMatch(tmpl, path);
    while t < |tmpl| || p < |path|
      invariant 0 <= t <= |tmpl| && 0 <= p <= |path| && count == |params|
      invariant MatchFrom(tmpl, t, path, p) == Matches(tmpl, path)
      invariant params + CapturesFrom(tmpl, t, path, p) == Captures(Split(tmpl), Split(path))
      decreases |tmpl| - t + |path| - p
    {
      if t < |tmpl| && tmpl[t] == SLASH {
        if p == |path| || path[p] != SLASH { OneEnds(tmpl, t, path, p); return false, params, count; }
        BothSlash(tmpl, t, path, p);
        t, p := t + 1, p + 1;
        continue;
      }
      if t == |tmpl| || p == |path| { OneEnds(tmpl, t, path, p); return false, params, count; }
      var et := ScanSegment(tmpl, t);
      var ep := ScanSegment(path, p);
      BothSegment(tmpl, t, et, path, p, ep);
      var same, got := MatchSegment(tmpl[t..et], path[p..ep]);
      if !same { return false, params, count; }
      params, count := params + got, count + |got|;
      t, p := et, ep;
    }
    EndOfMatch(tmpl, path);
    ok := true;
  }

  lemma StartOfMatch(tmpl: seq<byte>, path: seq<byte>)
    ensures MatchFrom(tmpl, 0, path, 0) == Matches(tmpl, path)
    ensures CapturesFrom(tmpl, 0, path, 0) == Captures(Split(tmpl), Split(path))
  {
    assert tmpl[0..] == tmpl && path[0..] == path;
  }

  lemma EndOfMatch(tmpl: seq<byte>, path: seq<byte>)
    ensures MatchFrom(tmpl, |tmpl|, path, |path|) && CapturesFrom(tmpl, |tmpl|, path, |path|) == []
  {
    SplitEnd(tmpl);
    SplitEnd(path);
  }

  /** The recursive matcher says: equally many segments, each pair agreeing. */
  lemma {:induction false} MatchPairs(ts: seq<seq<byte>>, ps: seq<seq<byte>>)
    ensures MatchSegments(ts, ps) <==> |ts| == |ps| && forall i :: 0 <= i < |ts| ==> SegmentMatches(ts[i], ps[i])
  {
    if ts != [] && ps != [] {
      MatchPairs(ts[1..], ps[1..]);
      if |ts| == |ps| && SegmentMatches(ts[0], ps[0]) && forall i :: 0 <= i < |ts[1..]| ==> SegmentMatches(ts[1..][i], ps[1..][i]) {
        forall i | 0 <= i < |ts|
          ensures SegmentMatches(ts[i], ps[i]) { if i > 0 { assert ts[i] == ts[1..][i - 1] && ps[i] == ps[1..][i - 1]; } }
      }
    }
  }

  /** Equally many segments; one that starts with a colon takes any non-empty segment, any other only itself. */
  lemma MatchMeans(ts: seq<seq<byte>>, ps: seq<seq<byte>>)
    ensures MatchSegments(ts, ps) <==>
              && |ts| == |ps|
              && forall i :: 0 <= i < |ts| ==>
                   if ts[i] != [] && ts[i][0] == COLON then ps[i] != [] else ts[i] == ps[i]
  {
    MatchPairs(ts, ps);
  }

  /** The first bytes of a string, as many as a parameter string holds. */
  predicate Cut(whole: seq<byte>, part: seq<byte>) {
    part <= whole && |part| == if |whole| < MAX_PATH_PARAM_LEN then |whole| else MAX_PATH_PARAM_LEN - 1
  }

  /** Captures come in order, one for each parameter segment: its name without the colon, and the segment it took. */
  lemma {:induction false} CaptureAt(ts: seq<seq<byte>>, ps: seq<seq<byte>>, i: nat)
    requires MatchSegments(ts, ps) && i < |ts| == |ps| && ts[i] != [] && ts[i][0] == COLON
    ensures |Captures(ts, ps)| == CountParams(ts) && CountParams(ts[..i]) < CountParams(ts)
    ensures var c := Captures(ts, ps)[CountParams(ts[..i])]; Cut(ts[i][1..], c.name) && Cut(ps[i], c.value)
  {
    hide Clip;
    ClipCuts(ts[i][1..]);
    ClipCuts(ps[i]);
    CaptureCount(ts, ps);
    if i == 0 {
      assert ts[..0] == [];
    } else {
      CaptureAt(ts[1..], ps[1..], i - 1);
      assert ts[..i][0] == ts[0] && ts[..i][1..] == ts[1..][..i - 1];
      assert CountParams(ts[..i]) == (if IsParam(ts[0]) then 1 else 0) + CountParams(ts[1..][..i - 1]);
    }
  }

  lemma {:induction false} CaptureCount(ts: seq<seq<byte>>, ps: seq<seq<byte>>)
    requires |ts| == |ps|
    ensures |Captures(ts, ps)| == CountParams(ts)
  {
    hide Clip;
    if ts != [] { CaptureCount(ts[1..], ps[1..]); }
  }

  lemma ClipCuts(s: seq<byte>)
    ensures Cut(s, Clip(s))
  {
  }

  /** The template with its parameters replaced by captured values, in order. */
  function Substitute(ts: seq<seq<byte>>, caps: seq<PathParam>): seq<seq<byte>>
  {
    if ts == [] then []
    else if IsParam(ts[0]) && caps != [] then [caps[0].value] + Substitute(ts[1..], caps[1..])
    else [ts[0]] + Substitute(ts[1..], caps)
  }

  predicate ValuesFit(ts: seq<seq<byte>>, ps: seq<seq<byte>>)
    requires |ts| == |ps|
  {
    forall i :: 0 <= i < |ts| && IsParam(ts[i]) ==> |ps[i]| < MAX_PATH_PARAM_LEN
  }

  lemma {:induction false} SubstituteSegments(ts: seq<seq<byte>>, ps: seq<seq<byte>>)
    requires MatchSegments(ts, ps) && |ts| == |ps|
    ensures Substitute(ts, Captures(ts, ps)) == ps <==> ValuesFit(ts, ps)
  {
    if ts != [] {
      hide Clip;
      var t, p := ts[0], ps[0];
      MatchMeans(ts[1..], ps[1..]);
      SubstituteSegments(ts[1..], ps[1..]);
      var rest := Captures(ts[1..], ps[1..]);
      ClipKeeps(p);
      if IsParam(t) {
        assert Captures(ts, ps) == [PathParam(Clip(t[1..]), Clip(p))] + rest;
        assert Captures(ts, ps)[1..] == rest;
        assert Substitute(ts, Captures(ts, ps)) == [Clip(p)] + Substitute(ts[1..], rest);
      } else {
        assert Captures(ts, ps) == rest;
        assert Substitute(ts, rest) == [t] + Substitute(ts[1..], rest);
      }
      var again := Substitute(ts, Captures(ts, ps));
      assert again == [again[0]] + again[1..] && ps == [p] + ps[1..];
      ValuesFitCons(ts, ps);
    }
  }

  lemma ClipKeeps(s: seq<byte>)
    ensures Clip(s) == s <==> |s| < MAX_PATH_PARAM_LEN
  {
  }

  lemma ValuesFitCons(ts: seq<seq<byte>>, ps: seq<seq<byte>>)
    requires |ts| == |ps| > 0
    ensures ValuesFit(ts, ps) <==> (IsParam(ts[0]) ==> |ps[0]| < MAX_PATH_PARAM_LEN) && ValuesFit(ts[1..], ps[1..])
  {
    if ValuesFit(ts[1..], ps[1..]) {
      assert forall i :: 1 <= i < |ts| ==> ts[i] == ts[1..][i - 1] && ps[i] == ps[1..][i - 1];
    }
    if ValuesFit(ts, ps) {
      assert forall i :: 0 <= i < |ts[1..]| ==> ts[1..][i] == ts[i + 1] && ps[1..][i] == ps[i + 1];
    }
  }

  /** Captures put back in the template give the path exactly when every captured segment fits the parameter size. */
  lemma CapturesRebuildPath(tmpl: seq<byte>, path: seq<byte>)
    requires Matches(tmpl, path)
    ensures |Split(tmpl)| == |Split(path)|
    ensures var again := Substitute(Split(tmpl), Captures(Split(tmpl), Split(path)));
            && (again == Split(path) <==> ValuesFit(Split(tmpl), Split(path)))
            && (ValuesFit(Split(tmpl), Split(path)) ==> again != [] && JoinSegments(again) == path)
  {
    MatchMeans(Split(tmpl), Split(path));
    SubstituteSegments(Split(tmpl), Split(path));
    JoinSplit(path);
  }

  // ------------------------------------------------------------------ resource lookup

  datatype Resource = Resource(path: seq<byte>, methods: set<byte>, observable: bool, sequence: u32) {
    /** Some segment starts with a colon: the path contains "/:". */
    predicate IsTemplate() {
      exists i :: 0 <= i < |path| - 1 && path[i] == SLASH && path[i + 1] == COLON
    }
  }

  function HasExactPath(path: seq<byte>): Resource -> bool {
    (r: Resource) => !r.IsTemplate() && r.path == path
  }

  function HasMatchingTemplate(path: seq<byte>): Resource -> bool {
    (r: Resource) => r.IsTemplate() && Matches(r.path, path)
  }

  /** First exact entry, else first matching template, however the two kinds are interleaved; -1 if neither. */
  function FindResource(rs: seq<Resource>, path: seq<byte>): (r: int)
    ensures -1 <= r < |rs|
    ensures r >= 0 ==>
              || (HasExactPath(path)(rs[r]) && forall j :: 0 <= j < r ==> !HasExactPath(path)(rs[j]))
              || (HasMatchingTemplate(path)(rs[r])
                  && (forall j :: 0 <= j < |rs| ==> !HasExactPath(path)(rs[j]))
                  && (forall j :: 0 <= j < r ==> !HasMatchingTemplate(path)(rs[j])))
    ensures r < 0 ==> forall j :: 0 <= j < |rs| ==> !HasExactPath(path)(rs[j]) && !HasMatchingTemplate(path)(rs[j])
  {
    var i := First(rs, HasExactPath(path));
    if i >= 0 then i else First(rs, HasMatchingTemplate(path))
  }

  /** Entry i is no template and has this very path. */
  predicate ExactAt(rs: seq<Resource>, path: seq<byte>, i: int) {
    0 <= i < |rs| && rs[i].path == path && forall j :: 0 <= j < |path| - 1 ==> !(path[j] == SLASH
                                                                                 && path[j + 1] == COLON)
  }

  /** Entry i is a template, and the path has its segments, with something non-empty for each that starts with a
      colon. */
  predicate TemplateAt(rs: seq<Resource>, path: seq<byte>, i: int) {
    && 0 <= i < |rs|
    && (exists j :: 0 <= j < |rs[i].path| - 1 && rs[i].path[j] == SLASH && rs[i].path[j + 1] == COLON)
    && var ts, ps := Split(rs[i].path), Split(path);
       && |ts| == |ps|
       && forall k :: 0 <= k < |ts| ==> if ts[k] != [] && ts[k][0] == COLON then ps[k] != [] else ts[k] == ps[k]
  }

  /** The resource of a path: the first entry with that very path; without one, the first template it matches. */
  lemma ResourceFound(rs: seq<Resource>, path: seq<byte>)
    ensures var i := FindResource(rs, path);
            if exists j :: ExactAt(rs, path, j) then ExactAt(rs, path, i) && forall j :: 0 <= j < i ==> !ExactAt(rs, path, j)
            else if exists j :: TemplateAt(rs, path, j) then
              TemplateAt(rs, path, i) && forall j :: 0 <= j < i ==> !TemplateAt(rs, path, j)
            else i == -1
  {
    hide Split, ExactAt, TemplateAt, FindResource;
    forall j | 0 <= j < |rs|
      ensures ExactAt(rs, path, j) <==> HasExactPath(path)(rs[j])
      ensures TemplateAt(rs, path, j) <==> HasMatchingTemplate(path)(rs[j])
    {
      EntryKind(rs, path, j);
    }
    forall j | ExactAt(rs, path, j) || TemplateAt(rs, path, j) ensures 0 <= j < |rs| { EntryInTable(rs, path, j); }
  }

  lemma EntryKind(rs: seq<Resource>, path: seq<byte>, j: nat)
    requires j < |rs|
    ensures ExactAt(rs, path, j) <==> HasExactPath(path)(rs[j])
    ensures TemplateAt(rs, path, j) <==> HasMatchingTemplate(path)(rs[j])
  {
    hide Split;
    MatchMeans(Split(rs[j].path), Split(path));
  }

  lemma EntryInTable(rs: seq<Resource>, path: seq<byte>, j: int)
    requires ExactAt(rs, path, j) || TemplateAt(rs, path, j)
    ensures 0 <= j < |rs|
  {
    hide Split;
  }

  function ParamsFor(r: Resource, path: seq<byte>): seq<PathParam> {
    if r.IsTemplate() then Captures(Split(r.path), Split(path)) else []
  }

  /** What registration owes the capture table. */
  predicate ParamsBounded(rs: seq<Resource>) {
    forall i :: 0 <= i < |rs| ==> CountParams(Split(rs[i].path)) <= MAX_PATH_PARAMS
  }

  method LookUp(rs: seq<Resource>, path: seq<byte>) returns (idx: int, params: seq<PathParam>)
    requires ParamsBounded(rs)
    ensures idx == FindResource(rs, path)
    ensures params == if idx < 0 then [] else ParamsFor(rs[idx], path)
    ensures |params| <= MAX_PATH_PARAMS
  {
    hide Matches, Split, Captures, CountParams;
    for i := 0 to |rs|
      invariant First(rs, HasExactPath(path)) == First(rs, HasExactPath(path), i)
    {
      if !rs[i].IsTemplate() && rs[i].path == path { return i, []; }
    }
    for i := 0 to |rs|
      invariant First(rs, HasMatchingTemplate(path)) == First(rs, HasMatchingTemplate(path), i)
    {
      if !rs[i].IsTemplate() { continue; }
      var ok, caps, count := MatchTemplate(rs[i].path, path, MAX_PATH_PARAMS);
      if ok { return i, caps; }
    }
    return -1, [];
  }

  // ------------------------------------------------------------------ Uri-Path options

  function NonEmpty(segs: seq<seq<byte>>): seq<seq<byte>> {
    if segs == [] then [] else (if segs[0] == [] then [] else [segs[0]]) + NonEmpty(segs[1..])
  }

  function Segments(path: seq<byte>): seq<seq<byte>> {
    NonEmpty(Split(path))
  }

  /** The length of a segment is stored in 16 bits. */
  function SegmentOpt(seg: seq<byte>): Opt {
    Opt(URI_PATH, seg[..|seg| % 0x1_0000])
  }

  function UriOptions(segs: seq<seq<byte>>): (os: seq<Opt>)
    ensures |os| == |segs| && forall i :: 0 <= i < |segs| ==> os[i] == SegmentOpt(segs[i])
  {
    seq(|segs|, i requires 0 <= i < |segs| => SegmentOpt(segs[i]))
  }

  lemma SegmentsAtSlash(s: seq<byte>, i: nat)
    requires i < |s| && s[i] == SLASH
    ensures Segments(s[i..]) == Segments(s[i + 1..])
  {
    SplitAtSlash(s, i);
    assert ([[]] + Split(s[i + 1..]))[1..] == Split(s[i + 1..]);
  }

  lemma SegmentsAtSegment(s: seq<byte>, i: nat, e: nat)
    requires i < |s| && s[i] != SLASH && e == SegEnd(s, i)
    ensures i < e && Segments(s[i..]) == [s[i..e]] + Segments(s[e..])
  {
    SplitAtSegment(s, i, e);
    assert ([[]] + Split(s[i..])[1..])[1..] == Split(s[i..])[1..];
    assert NonEmpty([[]] + Split(s[i..])[1..]) == NonEmpty(Split(s[i..])[1..]);
  }

  lemma SegmentsAtEnd(s: seq<byte>)
    ensures Segments(s[|s|..]) == []
  {
    SplitEnd(s);
  }

  method SkipSlashes(path: seq<byte>, start: nat) returns (i: nat)
    requires start <= |path|
    ensures start <= i <= |path| && (i < |path| ==> path[i] != SLASH)
    ensures Segments(path[i..]) == Segments(path[start..])
  {
    hide Segments;
    i := start;
    while i < |path| && path[i] == SLASH
      invariant start <= i <= |path| && Segments(path[i..]) == Segments(path[start..])
    {
      SegmentsAtSlash(path, i);
      i := i + 1;
    }
  }

  /** One segment; its length is stored in 16 bits. */
  method AddSegment(msg: Message, seg: seq<byte>) returns (ok: bool)
    requires msg.Valid()
    modifies msg`options, msg`lastNumber
    ensures msg.Valid() && (!old(msg.HasNull()) ==> !msg.HasNull())
    ensures ok <==> |old(msg.options)| < MAX_OPTIONS && (old(msg.options) == [] || old(msg.lastNumber) <= URI_PATH)
    ensures msg.Options() == old(msg.Options()) + if ok then [SegmentOpt(seg)] else []
    ensures |msg.options| == |old(msg.options)| + (if ok then 1 else 0)
    ensures msg.lastNumber == if ok then URI_PATH else old(msg.lastNumber)
  {
    var len: u16 := |seg| % 0x1_0000;
    ok := msg.AddOption(URI_PATH, External(seg[..len]), len);
    assert !ok ==> msg.Options() == old(msg.Options());
  }

  /** Adds one Uri-Path option per non-empty segment; stops at the first the message refuses. */
  method AddUriPathOptions(msg: Message, path: seq<byte>) returns (ok: bool)
    requires msg.Valid()
    modifies msg`options, msg`lastNumber
    ensures msg.Valid() && (!old(msg.HasNull()) ==> !msg.HasNull())
    ensures ok <==> |old(msg.options)| + |Segments(path)| <= MAX_OPTIONS
                    && (Segments(path) == [] || old(msg.options) == [] || old(msg.lastNumber) <= URI_PATH)
    ensures ok ==> msg.Options() == old(msg.Options()) + UriOptions(Segments(path))
    ensures ok ==> |msg.options| == |old(msg.options)| + |Segments(path)|
    ensures ok ==> msg.lastNumber == if Segments(path) == [] then old(msg.lastNumber) else URI_PATH
    ensures !ok ==> var k := |msg.options| - |old(msg.options)|;
                    0 <= k < |Segments(path)| && msg.Options() == old(msg.Options()) + UriOptions(Segments(path)[..k])
  {
    hide Segments, SegEnd, UriOptions, SegmentOpt, Message.HasNull, Message.Options, AddedUpTo;
    ghost var segs, base, count, last := Segments(path), msg.Options(), |msg.options|, msg.lastNumber;
    ghost var k := 0;
    var start := 0;
    assert path[0..] == path && segs[0..] == segs;
    NothingAdded(segs, base);
    while start < |path|
      invariant 0 <= start <= |path| && msg.Valid() && k <= |segs|
      invariant Segments(path[start..]) == segs[k..]
      invariant AddedUpTo(segs, k, base, msg.Options())
      invariant |msg.options| == count + k && msg.lastNumber == (if k == 0 then last else URI_PATH)
      invariant k > 0 ==> count == 0 || last <= URI_PATH
      invariant !old(msg.HasNull()) ==> !msg.HasNull()
      decreases |path| - start
    {
      start := SkipSlashes(path, start);
      if start == |path| { break; }
      var end := ScanSegment(path, start);
      SegmentsAtSegment(path, start, end);
      assert path[start..end] == segs[k..][0] == segs[k];
      assert segs[k..][1..] == segs[k + 1..];
      ghost var mid := msg.Options();
      ok := AddSegment(msg, path[start..end]);
      AddedNext(segs, k, base, mid, ok, msg.Options());
      if !ok { return; }
      k := k + 1;
      start := end;
    }
    SegmentsAtEnd(path);
    AddedAll(segs, base, msg.Options());
    ok := true;
  }

  ghost predicate AddedUpTo(segs: seq<seq<byte>>, k: nat, before: seq<Opt>, after: seq<Opt>)
    requires k <= |segs|
  {
    after == before + UriOptions(segs[..k])
  }

  lemma NothingAdded(segs: seq<seq<byte>>, before: seq<Opt>)
    ensures AddedUpTo(segs, 0, before, before)
  {
  }

  lemma AddedNext(segs: seq<seq<byte>>, k: nat, before: seq<Opt>, mid: seq<Opt>, ok: bool, after: seq<Opt>)
    requires k < |segs| && AddedUpTo(segs, k, before, mid) && after == mid + if ok then [SegmentOpt(segs[k])] else []
    ensures if ok then AddedUpTo(segs, k + 1, before, after) else after == before + UriOptions(segs[..k])
  {
    assert UriOptions(segs[..k + 1]) == UriOptions(segs[..k]) + [SegmentOpt(segs[k])];
  }

  lemma AddedAll(segs: seq<seq<byte>>, before: seq<Opt>, after: seq<Opt>)
    requires AddedUpTo(segs, |segs|, before, after)
    ensures after == before + UriOptions(segs)
  {
    assert segs[..|segs|] == segs;
  }

  function JoinOption(o: Opt): seq<byte> {
    if o.number == URI_PATH then [SLASH] + o.value else []
  }

  /** The Uri-Path options of a message, each preceded by a slash. */
  function JoinOptions(os: seq<Opt>): seq<byte> {
    if os == [] then []
    else JoinOption(os[0]) + JoinOptions(os[1..])
  }

  function JoinPath(os: seq<Opt>): seq<byte> {
    var p := JoinOptions(os);
    if p == [] then [SLASH] else p
  }

  lemma {:induction false} JoinOptionsSnoc(os: seq<Opt>, o: Opt)
    ensures JoinOptions(os + [o]) == JoinOptions(os) + (if o.number == URI_PATH then [SLASH] + o.value else [])
  {
    if os == [] {
      assert [o][1..] == [];
    } else {
      assert (os + [o])[1..] == os[1..] + [o];
      JoinOptionsSnoc(os[1..], o);
    }
  }

  lemma {:induction false} JoinOptionsPrefix(os: seq<Opt>, i: nat)
    requires i <= |os|
    ensures |JoinOptions(os[..i])| <= |JoinOptions(os)|
    decreases |os| - i
  {
    if i < |os| {
      assert os[..i + 1] == os[..i] + [os[i]];
      JoinOptionsSnoc(os[..i], os[i]);
      JoinOptionsPrefix(os, i + 1);
    } else {
      assert os[..i] == os;
    }
  }

  /** Rebuilds the path in `out`; succeeds exactly when the path and its NUL fit. */
  method JoinUriPath(msg: Message, out: array<byte>, cap: nat) returns (ok: bool)
    requires msg.Valid() && !msg.HasNull() && cap <= out.Length
    modifies out
    ensures ok <==> |JoinPath(msg.Options())| < cap
    ensures ok ==> var p := JoinPath(msg.Options()); out[..|p|] == p && out[|p|] == 0
  {
    hide JoinOptions;
    ghost var os := msg.Options();
    if cap < 2 { NonEmptyPath(os); return false; }
    var pos := 0;
    out[0] := 0;
    assert os[..0] == [];
    NoPathOptions();
    for i := 0 to |msg.options|
      invariant 0 <= pos < cap && out[..pos] == JoinOptions(os[..i]) && out[pos] == 0
    {
      assert os[..i + 1] == os[..i] + [os[i]];
      JoinOptionsSnoc(os[..i], os[i]);
      JoinOptionsPrefix(os, i + 1);
      var opt := msg.options[i];
      if opt.number != URI_PATH { continue; }
      assert msg.ValidRef(i);
      ok, pos := AppendSegment(out, pos, cap, Resolve(opt, msg.scratch).value);
      if !ok { return; }
      assert JoinOptions(os[..i]) + [SLASH] + os[i].value == JoinOptions(os[..i]) + ([SLASH] + os[i].value);
    }
    assert os[..|os|] == os;
    if pos == 0 {
      out[0] := SLASH;
      out[1] := 0;
    }
    ok := true;
  }

  /** A slash and one segment, always leaving room for the NUL it writes. */
  method AppendSegment(out: array<byte>, pos: nat, cap: nat, value: seq<byte>) returns (ok: bool, end: nat)
    requires pos < cap <= out.Length
    modifies out
    ensures ok <==> pos + 1 + |value| < cap
    ensures ok ==> end == pos + 1 + |value| && out[..end] == old(out[..pos]) + [SLASH] + value && out[end] == 0
  {
    ghost var before := out[..pos];
    if pos + 1 >= cap { return false, pos; }
    out[pos] := SLASH;
    assert out[..pos + 1] == before + [SLASH];
    if pos + 1 + |value| >= cap { return false, pos; }
    for i := 0 to |value|
      invariant out[..pos + 1] == before + [SLASH]
      invariant out[pos + 1..pos + 1 + i] == value[..i]
    {
      out[pos + 1 + i] := value[i];
      assert out[pos + 1..pos + 1 + i + 1] == out[pos + 1..pos + 1 + i] + [value[i]];
    }
    end := pos + 1 + |value|;
    assert out[pos + 1..end] == value;
    out[end] := 0;
    assert out[..end] == out[..pos + 1] + out[pos + 1..end];
    ok := true;
  }

  lemma NonEmptyPath(os: seq<Opt>)
    ensures |JoinPath(os)| >= 1
  {
  }

  lemma NoPathOptions()
    ensures JoinOptions([]) == []
  {
  }

  // ------------------------------------------------------------------ the round trip

  /** Runs of slashes become one slash and trailing slashes go. */
  function Collapse(s: seq<byte>): seq<byte> {
    if s == [] then []
    else if s[0] == SLASH && (|s| == 1 || s[1] == SLASH) then Collapse(s[1..])
    else [s[0]] + Collapse(s[1..])
  }

  function Normalize(path: seq<byte>): seq<byte> {
    var p := Collapse([SLASH] + path);
    if p == [] then [SLASH] else p
  }

  function SlashJoin(segs: seq<seq<byte>>): seq<byte> {
    if segs == [] then [] else [SLASH] + segs[0] + SlashJoin(segs[1..])
  }

  lemma {:induction false} CollapseSegment(s: seq<byte>, e: nat)
    requires e == SegEnd(s)
    ensures Collapse(s) == s[..e] + Collapse(s[e..])
    decreases |s|
  {
    if e == 0 {
      assert s[0..] == s;
    } else {
      SegEndIs(s[1..], 0, e - 1);
      CollapseSegment(s[1..], e - 1);
      assert s[1..][e - 1..] == s[e..];
      assert s[..e] == [s[0]] + s[1..][..e - 1];
    }
  }

  lemma {:induction false} CollapseIsSlashJoin(s: seq<byte>)
    ensures Collapse([SLASH] + s) == SlashJoin(Segments(s))
    decreases |s|
  {
    hide Split, Segments;
    assert ([SLASH] + s)[1..] == s && s[0..] == s;
    if s == [] {
      SegmentsAtEnd(s);
    } else if s[0] == SLASH {
      SegmentsAtSlash(s, 0);
      CollapseIsSlashJoin(s[1..]);
      assert s == [SLASH] + s[1..];
    } else {
      var e := SegEnd(s);
      SegmentsAtSegment(s, 0, e);
      CollapseSegment(s, e);
      assert ([s[..e]] + Segments(s[e..]))[1..] == Segments(s[e..]);
      if e < |s| {
        SegmentsAtSlash(s, e);
        CollapseIsSlashJoin(s[e + 1..]);
        assert s[e..] == [SLASH] + s[e + 1..];
      } else {
        SegmentsAtEnd(s);
      }
    }
  }

  predicate SegmentsFit(segs: seq<seq<byte>>) {
    forall i :: 0 <= i < |segs| ==> |segs[i]| < 0x1_0000
  }

  lemma {:induction false} CollapseNotLonger(s: seq<byte>)
    ensures |Collapse(s)| <= |s|
  {
    if s != [] { CollapseNotLonger(s[1..]); }
  }

  lemma {:induction false} SegmentsShorter(segs: seq<seq<byte>>, i: nat)
    requires i < |segs|
    ensures |segs[i]| < |SlashJoin(segs)|
  {
    if i > 0 { SegmentsShorter(segs[1..], i - 1); }
  }

  /** A path shorter than 65536 bytes has no segment that the 16-bit option length would cut. */
  lemma ShortPathFits(path: seq<byte>)
    requires |path| < 0x1_0000
    ensures SegmentsFit(Segments(path))
  {
    hide Segments, SlashJoin, Collapse;
    CollapseIsSlashJoin(path);
    CollapseNotLonger([SLASH] + path);
    forall i | 0 <= i < |Segments(path)| ensures |Segments(path)[i]| < 0x1_0000 { SegmentsShorter(Segments(path), i); }
  }

  lemma JoinCons(o: Opt, os: seq<Opt>)
    ensures JoinOptions([o] + os) == JoinOption(o) + JoinOptions(os)
  {
    assert ([o] + os)[1..] == os;
  }

  lemma FitCons(seg: seq<byte>, segs: seq<seq<byte>>)
    ensures SegmentsFit([seg] + segs) <==> |seg| < 0x1_0000 && SegmentsFit(segs)
  {
    assert forall i :: 0 <= i < |segs| ==> ([seg] + segs)[i + 1] == segs[i];
    assert ([seg] + segs)[0] == seg;
  }

  lemma UriCons(seg: seq<byte>, segs: seq<seq<byte>>)
    ensures UriOptions([seg] + segs) == [SegmentOpt(seg)] + UriOptions(segs)
  {
  }

  lemma SlashCons(seg: seq<byte>, segs: seq<seq<byte>>)
    ensures SlashJoin([seg] + segs) == [SLASH] + seg + SlashJoin(segs)
  {
    assert ([seg] + segs)[1..] == segs;
  }

  lemma JoinSegmentOpt(seg: seq<byte>)
    ensures JoinOption(SegmentOpt(seg)) == [SLASH] + seg[..|seg| % 0x1_0000]
    ensures if |seg| < 0x1_0000 then JoinOption(SegmentOpt(seg)) == [SLASH] + seg
            else |JoinOption(SegmentOpt(seg))| < |[SLASH] + seg|
  {
    if |seg| < 0x1_0000 { assert seg[..|seg|] == seg; }
  }

  lemma {:induction false} JoinUriOptions(segs: seq<seq<byte>>)
    ensures |JoinOptions(UriOptions(segs))| <= |SlashJoin(segs)|
    ensures if SegmentsFit(segs) then JoinOptions(UriOptions(segs)) == SlashJoin(segs)
            else |JoinOptions(UriOptions(segs))| < |SlashJoin(segs)|
  {
    if segs != [] {
      hide SegmentsFit, JoinOptions, JoinOption, SegmentOpt, UriOptions, SlashJoin;
      var seg, rest := segs[0], segs[1..];
      assert segs == [seg] + rest;
      JoinUriOptions(rest);
      FitCons(seg, rest);
      UriCons(seg, rest);
      SlashCons(seg, rest);
      JoinCons(SegmentOpt(seg), UriOptions(rest));
      JoinSegmentOpt(seg);
    }
  }

  lemma {:induction false} JoinOptionsConcat(a: seq<Opt>, b: seq<Opt>)
    ensures JoinOptions(a + b) == JoinOptions(a) + JoinOptions(b)
  {
    if a == [] {
      assert a + b == b;
    } else {
      hide JoinOption, JoinOptions;
      assert a == [a[0]] + a[1..] && a + b == [a[0]] + (a[1..] + b);
      JoinCons(a[0], a[1..]);
      JoinCons(a[0], a[1..] + b);
      JoinOptionsConcat(a[1..], b);
      Assoc(JoinOption(a[0]), JoinOptions(a[1..]), JoinOptions(b));
    }
  }

  lemma {:induction false} JoinOtherOptions(os: seq<Opt>)
    requires forall i :: 0 <= i < |os| ==> os[i].number != URI_PATH
    ensures JoinOptions(os) == []
  {
    if os != [] { JoinOtherOptions(os[1..]); }
  }

  /** Path round trip over the wire: a message that carries the options of `path`, possibly among others, encodes and
      decodes to one whose join is the path with slashes collapsed and the trailing slash dropped ("/" if empty),
      exactly when every segment fits the 16-bit option length. */
  lemma PathRoundTrip(m: Msg, before: seq<Opt>, path: seq<byte>, after: seq<Opt>)
    requires ValidMsg(m) && m.options == before + UriOptions(Segments(path)) + after
    requires forall i :: 0 <= i < |before| ==> before[i].number != URI_PATH
    requires forall i :: 0 <= i < |after| ==> after[i].number != URI_PATH
    ensures DecodeMsg(EncodeMsg(m)).Decoded?
    ensures JoinPath(DecodeMsg(EncodeMsg(m)).msg.options) == Normalize(path) <==> SegmentsFit(Segments(path))
  {
    hide DecodeMsg, EncodeMsg, Segments;
    DecodeEncode(m);
    JoinedOptions(before, Segments(path), after);
    CollapseIsSlashJoin(path);
    JoinUriOptions(Segments(path));
    ShortestJoin(Segments(path));
  }

  lemma JoinedOptions(before: seq<Opt>, segs: seq<seq<byte>>, after: seq<Opt>)
    requires forall i :: 0 <= i < |before| ==> before[i].number != URI_PATH
    requires forall i :: 0 <= i < |after| ==> after[i].number != URI_PATH
    ensures JoinOptions(before + UriOptions(segs) + after) == JoinOptions(UriOptions(segs))
  {
    hide JoinOptions, UriOptions;
    JoinOptionsConcat(before + UriOptions(segs), after);
    JoinOptionsConcat(before, UriOptions(segs));
    JoinOtherOptions(before);
    JoinOtherOptions(after);
  }

  lemma ShortestJoin(segs: seq<seq<byte>>)
    ensures segs != [] ==> JoinOptions(UriOptions(segs)) != []
  {
  }

  /** The string a C reader sees: everything before the first NUL. */
  function CString(s: seq<byte>): seq<byte> {
    if s == [] || s[0] == 0 then [] else [s[0]] + CString(s[1..])
  }

  predicate NulFree(s: seq<byte>) {
    forall i :: 0 <= i < |s| ==> s[i] != 0
  }

  lemma {:induction false} CStringOfNulFree(s: seq<byte>)
    requires NulFree(s)
    ensures CString(s) == s
  {
    if s != [] { CStringOfNulFree(s[1..]); }
  }

  lemma {:induction false} CollapseNulFree(s: seq<byte>)
    requires NulFree(s)
    ensures NulFree(Collapse(s))
  {
    if s != [] { CollapseNulFree(s[1..]); }
  }

  lemma NormalizeNulFree(path: seq<byte>)
    requires NulFree(path)
    ensures CString(Normalize(path)) == Normalize(path)
  {
    CollapseNulFree([SLASH] + path);
    CStringOfNulFree(Normalize(path));
  }

  lemma {:induction false} CStringNotLonger(s: seq<byte>)
    ensures |CString(s)| <= |s|
  {
    if s != [] { CStringNotLonger(s[1..]); }
  }

  /** The path a C reader gets back over the wire: for a path without NUL it is the normalised path exactly when every
      segment fits the 16-bit option length. */
  lemma PathReadBack(m: Msg, before: seq<Opt>, path: seq<byte>, after: seq<Opt>)
    requires ValidMsg(m) && m.options == before + UriOptions(Segments(path)) + after && NulFree(path)
    requires forall i :: 0 <= i < |before| ==> before[i].number != URI_PATH
    requires forall i :: 0 <= i < |after| ==> after[i].number != URI_PATH
    ensures JoinPath(m.options) == Normalize(path) || |JoinPath(m.options)| < |Normalize(path)|
    ensures CString(JoinPath(m.options)) == Normalize(path) <==> SegmentsFit(Segments(path))
  {
    hide Segments, CString, JoinOptions;
    JoinedOptions(before, Segments(path), after);
    CollapseIsSlashJoin(path);
    JoinUriOptions(Segments(path));
    ShortestJoin(Segments(path));
    NormalizeNulFree(path);
    CStringNotLonger(JoinPath(m.options));
  }
}
