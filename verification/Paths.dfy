/** Turning a bind path into Uri-Path segments: which segments a registered route can hold. */
module Paths {
  import opened Common
  import opened Strings
  import Seqs

  const MAX_PATH_SEGMENTS: nat := 8

  datatype PathError = TooLong | EmptySegment | DotSegment

  type Path = seq<string>

  predicate SegmentOk(segment: string) {
    segment != "" && segment != "." && segment != ".."
  }

  /** What a route's path always is. */
  predicate PathOk(path: Path) {
    |path| <= MAX_PATH_SEGMENTS && forall i :: 0 <= i < |path| ==> SegmentOk(path[i])
  }

  function SegmentError(segment: string): Option<PathError> {
    if segment == "" then Some(EmptySegment)
    else if segment == "." || segment == ".." then Some(DotSegment)
    else None
  }

  /** The first refusal when segments are taken one by one into `room` places. */
  function FirstError(segments: seq<string>, room: nat): (e: Option<PathError>)
    ensures e.None? <==> |segments| <= room && forall i :: 0 <= i < |segments| ==> SegmentOk(segments[i])
  {
    if segments == [] then None
    else if SegmentError(segments[0]).Some? then SegmentError(segments[0])
    else if room == 0 then Some(TooLong)
    else
      var rest := segments[1..];
      assert forall i :: 0 <= i < |rest| ==> rest[i] == segments[i + 1];
      assert forall i :: 1 <= i < |segments| ==> segments[i] == rest[i - 1];
      FirstError(rest, room - 1)
  }

  /** Segment `i` is the first that cannot be taken. */
  ghost predicate FirstBad(segments: seq<string>, room: nat, i: nat) {
    i < |segments| && (i >= room || !SegmentOk(segments[i])) && forall k :: 0 <= k < i ==> k < room && SegmentOk(segments[k])
  }

  /** The refusal is that of the first segment that cannot be taken: it is empty, it is "." or "..", or it
      is one too many. */
  lemma {:induction false} FirstErrorIs(segments: seq<string>, room: nat, i: nat)
    requires FirstBad(segments, room, i)
    ensures FirstError(segments, room) == Some(if segments[i] == "" then EmptySegment
                                               else if segments[i] == "." || segments[i] == ".." then DotSegment else TooLong)
    decreases i
  {
    if i > 0 {
      assert SegmentOk(segments[0]) && room > 0;
      var rest := segments[1..];
      assert rest[i - 1] == segments[i] && forall k :: 0 <= k < i - 1 ==> rest[k] == segments[k + 1];
      FirstErrorIs(rest, room - 1, i - 1);
    }
  }

  /** `trim_start_matches('/')`. */
  function TrimSlashes(path: string): string {
    if HasPrefix(path, '/') then TrimSlashes(path[1..]) else path
  }

  /** The segments written between slashes; the root has none. */
  function Pieces(path: string): seq<string> {
    if TrimSlashes(path) == "" then [] else Split(TrimSlashes(path), '/')
  }

  /** `split_path` into a table of `room` places. */
  method SplitPath(path: string, room: nat) returns (r: Result<Path, PathError>)
    ensures var pieces := Pieces(path);
            r == (if FirstError(pieces, room).None? then Ok(pieces) else Err(FirstError(pieces, room).value))
  {
    var rest := TrimSlashes(path);
    if rest == "" { return Ok([]); }
    var pieces := Split(rest, '/');
    var out: seq<string> := [];
    while |out| < |pieces|
      invariant |out| <= |pieces| && |out| <= room && out == pieces[..|out|]
      invariant FirstError(pieces, room) == FirstError(pieces[|out|..], room - |out|)
    {
      var segment := pieces[|out|];
      if segment == "" { return Err(EmptySegment); }
      if segment == "." || segment == ".." { return Err(DotSegment); }
      if |out| >= room { return Err(TooLong); }
      Seqs.Drop2(pieces, |out|, 1);
      Seqs.TakeNext(pieces, |out|);
      out := out + [segment];
    }
    assert out == pieces && pieces[|out|..] == [];
    return Ok(out);
  }

  /** `path_from_segments` and `Path::from_segments`: the length is tested before any segment. */
  method FromSegments(segments: seq<string>) returns (r: Result<Path, PathError>)
    ensures |segments| > MAX_PATH_SEGMENTS ==> r == Err(TooLong)
    ensures |segments| <= MAX_PATH_SEGMENTS ==>
              r == (var e := FirstError(segments, MAX_PATH_SEGMENTS); if e.None? then Ok(segments) else Err(e.value))
    ensures r.Ok? <==> PathOk(segments)
  {
    if |segments| > MAX_PATH_SEGMENTS { return Err(TooLong); }
    var out: seq<string> := [];
    while |out| < |segments|
      invariant |out| <= |segments| && out == segments[..|out|]
      invariant FirstError(segments, MAX_PATH_SEGMENTS) ==
                FirstError(segments[|out|..], MAX_PATH_SEGMENTS - |out|)
    {
      var segment := segments[|out|];
      if segment == "" { return Err(EmptySegment); }
      if segment == "." || segment == ".." { return Err(DotSegment); }
      Seqs.Drop2(segments, |out|, 1);
      Seqs.TakeNext(segments, |out|);
      out := out + [segment];
    }
    assert out == segments && segments[|out|..] == [];
    return Ok(out);
  }

  /** `path_from_into` on slash-separated text. */
  method FromText(path: string) returns (r: Result<Path, PathError>)
    ensures r.Ok? <==> PathOk(Pieces(path))
    ensures r.Ok? ==> r.value == Pieces(path)
    ensures r.Err? ==> FirstError(Pieces(path), MAX_PATH_SEGMENTS) == Some(r.error)
  {
    r := SplitPath(path, MAX_PATH_SEGMENTS);
    if r.Ok? {
      r := FromSegments(r.value);
    }
  }

  /** What is left of a text without its leading slashes: the whole run of them goes and nothing else. */
  lemma {:induction false} TrimIff(path: string, rest: string)
    ensures TrimSlashes(path) == rest <==>
            && !HasPrefix(rest, '/') && |rest| <= |path| && path[|path| - |rest|..] == rest
            && forall i :: 0 <= i < |path| - |rest| ==> path[i] == '/'
    decreases |path|
  {
    if HasPrefix(path, '/') {
      TrimIff(path[1..], rest);
      assert forall i :: 1 <= i < |path| ==> path[i] == path[1..][i - 1];
      if |rest| < |path| {
        assert path[1..][|path| - 1 - |rest|..] == path[|path| - |rest|..];
      } else {
        assert path[0..] == path;
      }
    } else {
      assert path[0..] == path;
    }
  }

  /** Eight segments at most, none of them empty, "." or "..". */
  lemma PathIff(path: Path)
    ensures PathOk(path) <==> |path| <= 8 && "" !in path && "." !in path && ".." !in path
  {
  }

  /** Accepted text is its segments between slashes, after any leading slashes. */
  lemma PiecesJoin(path: string)
    ensures Pieces(path) != [] ==> Join(Pieces(path), '/') == TrimSlashes(path)
    ensures Pieces(path) == [] <==> TrimSlashes(path) == ""
  {
    JoinSplit(TrimSlashes(path), '/');
  }
}
