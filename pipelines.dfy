/** The deterministic parts of the coordinator's detached pipelines, as
    functions over the outcomes of their stages: the messages a preview
    pipeline broadcasts, the phoneme sequence an export hands to the
    renderer, the export's result message, and the batch of cached previews
    sent to a client that joins a project. */
module Pipelines {
  import opened Types
  import opened Segments

  /** The outcome of `sm::analyze` for one sentence. */
  type Analysis = Result<AnalysisResult, AmbiguityError>

  /** What the preview pipeline's stages yield, in the order it awaits them:
      analysis, the downloader's answer, the preview render, the file read. */
  datatype PreviewStages = PreviewStages(
    analysis: Analysis,
    videos: VideosOutcome,
    renderOk: bool,
    artifact: Option<Bytes>)

  /** `async_run_preview!`: first the structural request; then, when
      `preview` is set, at most one more message. An ambiguous sentence
      yields `AmbiguityToken`; otherwise a preview is broadcast only when the
      videos are ready, the chosen combo exists (indexing past the end
      panics), the render succeeds and the artifact can be read. Every other
      failure ends the pipeline silently. */
  function PreviewPipeline(request: ServerRequest, recipients: set<SessionId>, segment: Segment,
                           row: nat, preview: bool, stages: PreviewStages): (out: seq<Delivery>)
    ensures 1 <= |out| <= 2 && out[0] == Delivery(recipients, request)
    ensures !preview ==> |out| == 1
    ensures forall k :: 0 <= k < |out| ==> out[k].to == recipients
    ensures (|out| == 2 && out[1].msg.AmbiguityToken?) <==> (preview && stages.analysis.Err?)
    ensures |out| == 2 && out[1].msg.AmbiguityToken? ==>
              out[1].msg == AmbiguityToken(row, stages.analysis.error.word)
    ensures (|out| == 2 && out[1].msg.PreviewReady?) <==>
              && preview && stages.analysis.Ok? && stages.videos.Ready?
              && segment.comboIndex < |stages.analysis.value|
              && stages.renderOk && stages.artifact.Some?
    ensures |out| == 2 && out[1].msg.PreviewReady? ==>
              out[1].msg == PreviewReady(stages.artifact.value, segment)
    ensures |out| == 2 ==> out[1].msg.AmbiguityToken? || out[1].msg.PreviewReady?
  {
    var first := [Delivery(recipients, request)];
    if !preview then first
    else match stages.analysis
      case Err(ambiguity) => first + [Delivery(recipients, AmbiguityToken(row, ambiguity.word))]
      case Ok(combos) =>
        if !stages.videos.Ready? || segment.comboIndex >= |combos| || !stages.renderOk then first
        else match stages.artifact
          case None => first
          case Some(bytes) => first + [Delivery(recipients, PreviewReady(bytes, segment))]
  }

  /** A pipeline started by a structural edit never reports both an
      ambiguity and a preview. */
  lemma PreviewNeverBoth(request: ServerRequest, recipients: set<SessionId>, segment: Segment,
                         row: nat, preview: bool, stages: PreviewStages)
    requires IsStructural(request)
    ensures var out := PreviewPipeline(request, recipients, segment, row, preview, stages);
      !((exists i :: 0 <= i < |out| && out[i].msg.AmbiguityToken?) &&
        (exists j :: 0 <= j < |out| && out[j].msg.PreviewReady?))
  {
  }

  /** The combo an analysis offers at `index`, or None where indexing panics. */
  function Pick(combos: AnalysisResult, index: u16): (r: Option<Combo>)
    ensures r.Some? <==> index < |combos|
    ensures r.Some? ==> r.value == combos[index]
  {
    if index < |combos| then Some(combos[index]) else None
  }

  /** Appends two partial sequences; a panic on either side wins. */
  function Concat<T>(a: Option<seq<T>>, b: Option<seq<T>>): (r: Option<seq<T>>)
    ensures r.Some? <==> a.Some? && b.Some?
    ensures r.Some? ==> r.value == a.value + b.value
  {
    if a.Some? && b.Some? then Some(a.value + b.value) else None
  }

  lemma ConcatAssociative<T>(a: Option<seq<T>>, b: Option<seq<T>>, c: Option<seq<T>>)
    ensures Concat(a, Concat(b, c)) == Concat(Concat(a, b), c)
  {
    if a.Some? && b.Some? && c.Some? {
      assert a.value + (b.value + c.value) == (a.value + b.value) + c.value;
    }
  }

  lemma ConcatEmpty<T>(a: Option<seq<T>>)
    ensures Concat(Some([]), a) == a && Concat(a, Some([])) == a
  {
    if a.Some? {
      assert [] + a.value == a.value && a.value + [] == a.value;
    }
  }

  /** The analyses that succeeded, in segment order (the `filter` step). */
  function Successful(analyses: seq<Analysis>): (r: seq<AnalysisResult>)
    ensures |r| <= |analyses|
    ensures forall x :: x in r <==> Ok(x) in analyses
  {
    if analyses == [] then []
    else if analyses[0].Ok? then [analyses[0].value] + Successful(analyses[1..])
    else Successful(analyses[1..])
  }

  /** The filter keeps order: filtering a concatenation gives the filtered
      parts one after the other. */
  lemma {:induction false} SuccessfulAppend(a: seq<Analysis>, b: seq<Analysis>)
    ensures Successful(a + b) == Successful(a) + Successful(b)
  {
    if a == [] {
      assert a + b == b;
    } else {
      assert (a + b)[0] == a[0];
      assert (a + b)[1..] == a[1..] + b;
      SuccessfulAppend(a[1..], b);
    }
  }

  /** A single success is kept and a single ambiguity dropped. */
  lemma SuccessfulOne(a: Analysis)
    ensures Successful([a]) == (if a.Ok? then [a.value] else [])
  {
    assert [a][1..] == [];
  }

  /** The export assembly AS WRITTEN: the i-th successful analysis is indexed
      with the combo index of `segments[i]`, i counting the successful
      analyses only, then everything is flattened. None where one of those
      indexings is past the end. */
  function ExportCombosAsWritten(segments: seq<Segment>, analyses: seq<Analysis>): (r: Option<Combo>)
    requires |analyses| == |segments|
    ensures r.Some? <==> forall i :: 0 <= i < |Successful(analyses)| ==>
                           segments[i].comboIndex < |Successful(analyses)[i]|
  {
    Gather(Successful(analyses), segments)
  }

  /** `enumerate` then index: pairs `results[i]` with `segments[i]`; the
      segments past the last result are not looked at. */
  function Gather(results: seq<AnalysisResult>, segments: seq<Segment>): (r: Option<Combo>)
    requires |results| <= |segments|
    ensures r.Some? <==> forall i :: 0 <= i < |results| ==> segments[i].comboIndex < |results[i]|
  {
    if results == [] then Some([])
    else
      var tail := Gather(results[1..], segments[1..]);
      assert forall i :: 1 <= i < |results| ==> results[i] == results[1..][i - 1] && segments[i] == segments[1..][i - 1];
      Concat(Pick(results[0], segments[0].comboIndex), tail)
  }

  /** Gathering in two parts gives the parts' sequences in order, the first
      part's results paired with the first part's segments. */
  lemma {:induction false} GatherAppend(r1: seq<AnalysisResult>, s1: seq<Segment>,
                                        r2: seq<AnalysisResult>, s2: seq<Segment>)
    requires |r1| == |s1| && |r2| <= |s2|
    ensures Gather(r1 + r2, s1 + s2) == Concat(Gather(r1, s1), Gather(r2, s2))
  {
    if r1 == [] {
      assert r1 + r2 == r2 && s1 + s2 == s2;
      ConcatEmpty(Gather(r2, s2));
    } else {
      assert (r1 + r2)[1..] == r1[1..] + r2;
      assert (s1 + s2)[1..] == s1[1..] + s2;
      assert (r1 + r2)[0] == r1[0] && (s1 + s2)[0] == s1[0];
      GatherAppend(r1[1..], s1[1..], r2, s2);
      ConcatAssociative(Pick(r1[0], s1[0].comboIndex), Gather(r1[1..], s1[1..]), Gather(r2, s2));
    }
  }

  /** One result contributes the combo its paired segment selects. */
  lemma GatherOne(c: AnalysisResult, s: Segment, rest: seq<Segment>)
    ensures Gather([c], [s] + rest) == Pick(c, s.comboIndex)
  {
    assert [c][1..] == [];
    ConcatEmpty(Pick(c, s.comboIndex));
  }

  /** The export assembly as intended: every segment whose analysis succeeded
      contributes the combo its own combo index selects, in segment order;
      ambiguous segments contribute nothing. None where a selected index is
      past the end of its analysis. */
  function ExportCombos(segments: seq<Segment>, analyses: seq<Analysis>): (r: Option<Combo>)
    requires |analyses| == |segments|
    ensures r.Some? <==> forall k :: 0 <= k < |segments| && analyses[k].Ok? ==>
                           segments[k].comboIndex < |analyses[k].value|
  {
    if segments == [] then Some([])
    else
      var head := if analyses[0].Ok? then Pick(analyses[0].value, segments[0].comboIndex) else Some([]);
      var tail := ExportCombos(segments[1..], analyses[1..]);
      assert forall k :: 1 <= k < |segments| ==> segments[k] == segments[1..][k - 1] && analyses[k] == analyses[1..][k - 1];
      Concat(head, tail)
  }

  /** Exporting a list in two parts gives the parts' sequences in order. */
  lemma {:induction false} ExportCombosAppend(s1: seq<Segment>, a1: seq<Analysis>, s2: seq<Segment>, a2: seq<Analysis>)
    requires |a1| == |s1| && |a2| == |s2|
    ensures ExportCombos(s1 + s2, a1 + a2) == Concat(ExportCombos(s1, a1), ExportCombos(s2, a2))
  {
    if s1 == [] {
      assert s1 + s2 == s2 && a1 + a2 == a2;
      var e := ExportCombos(s2, a2);
      if e.Some? {
        assert [] + e.value == e.value;
      }
    } else {
      assert (s1 + s2)[1..] == s1[1..] + s2;
      assert (a1 + a2)[1..] == a1[1..] + a2;
      assert (s1 + s2)[0] == s1[0] && (a1 + a2)[0] == a1[0];
      ExportCombosAppend(s1[1..], a1[1..], s2, a2);
      var head := if a1[0].Ok? then Pick(a1[0].value, s1[0].comboIndex) else Some([]);
      ConcatAssociative(head, ExportCombos(s1[1..], a1[1..]), ExportCombos(s2, a2));
    }
  }

  /** A single successful segment contributes exactly its selected combo; a
      single ambiguous one contributes nothing. */
  lemma ExportCombosOne(s: Segment, a: Analysis)
    ensures a.Err? ==> ExportCombos([s], [a]) == Some([])
    ensures a.Ok? && s.comboIndex < |a.value| ==> ExportCombos([s], [a]) == Some(a.value[s.comboIndex])
  {
    assert [s][1..] == [] && [a][1..] == [];
    if a.Ok? && s.comboIndex < |a.value| {
      assert a.value[s.comboIndex] + [] == a.value[s.comboIndex];
    }
  }

  /** When every analysis succeeds, the code as written and the intended
      assembly agree. */
  lemma {:induction false} AsWrittenAgreesWithoutAmbiguity(segments: seq<Segment>, analyses: seq<Analysis>)
    requires |analyses| == |segments|
    requires forall k :: 0 <= k < |analyses| ==> analyses[k].Ok?
    ensures ExportCombosAsWritten(segments, analyses) == ExportCombos(segments, analyses)
  {
    if segments != [] {
      AsWrittenAgreesWithoutAmbiguity(segments[1..], analyses[1..]);
      assert Successful(analyses) == [analyses[0].value] + Successful(analyses[1..]);
      assert Successful(analyses)[1..] == Successful(analyses[1..]);
    }
  }

  /** An ambiguous first segment makes the code as written select the second
      segment's combo with the FIRST segment's combo index. */
  lemma AsWrittenUsesWrongComboIndex()
    ensures var segments := [Segment("x", 0), Segment("y", 1)];
            var c0 := [Phonem(0, F64(0), F64(1))];
            var c1 := [Phonem(0, F64(2), F64(3))];
            var analyses: seq<Analysis> := [Err(AmbiguityError("x")), Ok([c0, c1])];
            ExportCombosAsWritten(segments, analyses) == Some(c0) &&
            ExportCombos(segments, analyses) == Some(c1)
  {
    var segments := [Segment("x", 0), Segment("y", 1)];
    var c0 := [Phonem(0, F64(0), F64(1))];
    var c1 := [Phonem(0, F64(2), F64(3))];
    var analyses: seq<Analysis> := [Err(AmbiguityError("x")), Ok([c0, c1])];
    assert Successful(analyses[1..][1..]) == [];
    assert Successful(analyses) == [[c0, c1]];
    assert Gather([[c0, c1]][1..], segments[1..]) == Some([]);
    assert c0 + [] == c0;
    assert ExportCombos(segments[1..][1..], analyses[1..][1..]) == Some([]);
    assert ExportCombos(segments[1..], analyses[1..]) == Some(c1 + []);
    assert c1 + [] == c1;
    assert [] + c1 == c1;
  }

  /** An ambiguous first segment with a large combo index makes the code as
      written index the second segment's analysis past its end and panic,
      where the intended assembly exports the second segment's combo. */
  lemma AsWrittenPanicsWhereIntendedExports()
    ensures var segments := [Segment("x", 5), Segment("y", 0)];
            var c0 := [Phonem(0, F64(0), F64(1))];
            var analyses: seq<Analysis> := [Err(AmbiguityError("x")), Ok([c0])];
            ExportCombosAsWritten(segments, analyses) == None &&
            ExportCombos(segments, analyses) == Some(c0)
  {
    var segments := [Segment("x", 5), Segment("y", 0)];
    var c0 := [Phonem(0, F64(0), F64(1))];
    var analyses: seq<Analysis> := [Err(AmbiguityError("x")), Ok([c0])];
    assert Successful(analyses[1..][1..]) == [];
    assert Successful(analyses) == [[c0]];
    assert ExportCombos(segments[1..][1..], analyses[1..][1..]) == Some([]);
    assert c0 + [] == c0 && [] + c0 == c0;
  }

  /** The rest of the export future, over the assembled sequence (None when
      assembly panicked): ask for the videos, render, read the artifact and
      broadcast it tagged with the segment hash. A panic during assembly or
      any failed stage broadcasts nothing. */
  function ExportPipeline(recipients: set<SessionId>, segments: seq<Segment>, combos: Option<Combo>,
                          videos: VideosOutcome, renderOk: bool, artifact: Option<Bytes>): (out: seq<Delivery>)
    ensures |out| <= 1
    ensures |out| == 1 <==> combos.Some? && videos.Ready? && renderOk && artifact.Some?
    ensures |out| == 1 ==>
              out[0] == Delivery(recipients, RenderResult(HashSegments(segments), artifact.value))
  {
    match combos
    case None => []
    case Some(_) =>
      if !videos.Ready? || !renderOk || artifact.None? then []
      else [Delivery(recipients, RenderResult(HashSegments(segments), artifact.value))]
  }

  /** Without an ambiguous segment the export as written broadcasts what the
      intended assembly would; with one it may broadcast where the intended
      one does not, or the reverse. */
  lemma {:induction false} ExportAsWrittenAgrees(recipients: set<SessionId>, segments: seq<Segment>,
                                                 analyses: seq<Analysis>, videos: VideosOutcome,
                                                 renderOk: bool, artifact: Option<Bytes>)
    requires |analyses| == |segments|
    requires forall k :: 0 <= k < |analyses| ==> analyses[k].Ok?
    ensures ExportPipeline(recipients, segments, ExportCombosAsWritten(segments, analyses), videos, renderOk, artifact) ==
            ExportPipeline(recipients, segments, ExportCombos(segments, analyses), videos, renderOk, artifact)
  {
    AsWrittenAgreesWithoutAmbiguity(segments, analyses);
  }

  /** What looking up one segment's preview yields when a client joins: its
      analysis, then the cached preview file (if it exists). */
  datatype PreviewLookup = PreviewLookup(analysis: Analysis, artifact: Option<Bytes>)

  /** A lookup that produces a preview. */
  predicate Available(segment: Segment, lookup: PreviewLookup) {
    lookup.analysis.Ok? && segment.comboIndex < |lookup.analysis.value| && lookup.artifact.Some?
  }

  /** A lookup whose combo index is past the end of its analysis; indexing
      panics and the whole batch is lost. */
  predicate Panics(segment: Segment, lookup: PreviewLookup) {
    lookup.analysis.Ok? && segment.comboIndex >= |lookup.analysis.value|
  }

  /** What one segment adds to the batch: its preview when available, None
      when its lookup panics, nothing otherwise. */
  function PreviewOf(segment: Segment, lookup: PreviewLookup): (r: Option<seq<Preview>>)
    ensures r.None? <==> Panics(segment, lookup)
    ensures Available(segment, lookup) ==> r == Some([Preview(lookup.artifact.value, segment)])
    ensures !Panics(segment, lookup) && !Available(segment, lookup) ==> r == Some([])
  {
    if Panics(segment, lookup) then None
    else if Available(segment, lookup) then Some([Preview(lookup.artifact.value, segment)])
    else Some([])
  }

  /** The `Previews` batch: the segments whose preview is available, in
      order; segments without an analysis or preview file are left out. None
      when some lookup panics. */
  function CollectPreviews(segments: seq<Segment>, lookups: seq<PreviewLookup>): (r: Option<seq<Preview>>)
    requires |lookups| == |segments|
    ensures r.Some? <==> forall k :: 0 <= k < |segments| ==> !Panics(segments[k], lookups[k])
    ensures r.Some? ==> |r.value| <= |segments|
    ensures r.Some? ==> forall p :: p in r.value ==> p.segment in segments
    ensures r.Some? && (forall k :: 0 <= k < |segments| ==> Available(segments[k], lookups[k])) ==>
              |r.value| == |segments| &&
              forall k :: 0 <= k < |segments| ==> r.value[k] == Preview(lookups[k].artifact.value, segments[k])
  {
    if segments == [] then Some([])
    else
      var rest := CollectPreviews(segments[1..], lookups[1..]);
      assert forall k :: 1 <= k < |segments| ==> segments[k] == segments[1..][k - 1] && lookups[k] == lookups[1..][k - 1];
      Concat(PreviewOf(segments[0], lookups[0]), rest)
  }

  /** Collecting a list in two parts gives the parts' batches in order, so
      the batch is exactly the available previews in segment order. */
  lemma {:induction false} CollectPreviewsAppend(s1: seq<Segment>, l1: seq<PreviewLookup>,
                                                 s2: seq<Segment>, l2: seq<PreviewLookup>)
    requires |l1| == |s1| && |l2| == |s2|
    ensures CollectPreviews(s1 + s2, l1 + l2) == Concat(CollectPreviews(s1, l1), CollectPreviews(s2, l2))
  {
    if s1 == [] {
      assert s1 + s2 == s2 && l1 + l2 == l2;
      ConcatEmpty(CollectPreviews(s2, l2));
    } else {
      assert (s1 + s2)[1..] == s1[1..] + s2;
      assert (l1 + l2)[1..] == l1[1..] + l2;
      assert (s1 + s2)[0] == s1[0] && (l1 + l2)[0] == l1[0];
      CollectPreviewsAppend(s1[1..], l1[1..], s2, l2);
      ConcatAssociative(PreviewOf(s1[0], l1[0]), CollectPreviews(s1[1..], l1[1..]), CollectPreviews(s2, l2));
    }
  }

  /** A single segment's batch is exactly what it adds. */
  lemma CollectPreviewsOne(s: Segment, l: PreviewLookup)
    ensures CollectPreviews([s], [l]) == PreviewOf(s, l)
  {
    assert [s][1..] == [] && [l][1..] == [];
    ConcatEmpty(PreviewOf(s, l));
  }
}
