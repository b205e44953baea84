/** The analysis memo cache of src/sm.rs: `analyze` looks the key up, and
    on a miss runs the external analysis engine, caching a successful result
    and returning an ambiguity without caching it. The engine is a function
    from its argument list to its output; the process-wide cache behind its
    lock is one object. */
module Analysis {
  import opened Types

  /** What the engine's standard output parses as: an analysis result, an
      ambiguity error, both or neither; `launched` is false when the process
      could not be started. */
  datatype EngineOutput = EngineOutput(launched: bool, asResult: Option<AnalysisResult>,
                                       asAmbiguity: Option<AmbiguityError>)

  /** The decision `analyze` takes on the engine output: the result parse
      wins, the ambiguity parse is tried second, and `None` stands for the
      panic when the process cannot start or neither parse succeeds. */
  function Interpret(out: EngineOutput): (r: Option<Result<AnalysisResult, AmbiguityError>>)
    ensures r.None? <==> !out.launched || (out.asResult.None? && out.asAmbiguity.None?)
    ensures r.Some? && r.value.Ok? ==> out.asResult == Some(r.value.value)
    ensures r.Some? && r.value.Err? ==> out.asResult.None? && out.asAmbiguity == Some(r.value.error)
  {
    if !out.launched then None
    else match out.asResult
      case Some(result) => Some(Ok(result))
      case None =>
        match out.asAmbiguity
        case Some(ambiguity) => Some(Err(ambiguity))
        case None => None
  }

  /** The ids of a project's videos written one after another. */
  function ConcatIds(ids: seq<VideoId>): string {
    if ids == [] then "" else ids[0] + ConcatIds(ids[1..])
  }

  /** The concatenation of two id lists is the concatenation of their
      strings, so only the characters, not the split into ids, reach the key. */
  lemma {:induction false} ConcatIdsAppend(a: seq<VideoId>, b: seq<VideoId>)
    ensures ConcatIds(a + b) == ConcatIds(a) + ConcatIds(b)
  {
    if a == [] {
      assert a + b == b;
    } else {
      assert (a + b)[0] == a[0];
      assert (a + b)[1..] == a[1..] + b;
      ConcatIdsAppend(a[1..], b);
    }
  }

  /** The cache key: the seed, the concatenated video ids in project order
      and the exact sentence. */
  datatype AnalysisId = AnalysisId(seed: Seed, videos: string, sentence: string)

  function KeyOf(project: Project, sentence: string): (k: AnalysisId)
    ensures k.seed == project.seed && k.sentence == sentence
    ensures k.videos == ConcatIds(project.videoIds)
  {
    AnalysisId(project.seed, ConcatIds(project.videoIds), sentence)
  }

  /** The engine's argument list: the sentence, the seed, then every video
      in project order. */
  function EngineArgs(project: Project, sentence: string): (args: seq<string>)
    ensures |args| == 2 + |project.videoIds|
    ensures args[0] == sentence && args[1] == project.seed
    ensures forall i :: 0 <= i < |project.videoIds| ==> args[2 + i] == project.videoIds[i]
  {
    [sentence, project.seed] + project.videoIds
  }

  /** Under the key assumed here, which concatenates the ids without a
      separator, two projects with different video lists share a key, so
      the cache would answer the second with the first one's analysis. */
  lemma KeyCollision()
    ensures var a := Project("s", ["ab", "c"], "p", []);
            var b := Project("s", ["a", "bc"], "q", []);
            a.videoIds != b.videoIds && KeyOf(a, "hi") == KeyOf(b, "hi")
  {
  }

  class AnalysisCache {
    var entries: map<AnalysisId, AnalysisResult>
    /** The argument list of every engine run, in order. */
    var engineCalls: seq<seq<string>>

    constructor ()
      ensures entries == map[] && engineCalls == []
    {
      entries, engineCalls := map[], [];
    }

    /** `analyze`. A hit answers from the cache without running the engine;
        a miss runs it once, caches a result under exactly the key looked up
        and returns it, or returns an ambiguity and caches nothing. */
    method Analyze(project: Project, sentence: string, engine: seq<string> -> EngineOutput)
      returns (r: Result<AnalysisResult, AmbiguityError>)
      requires KeyOf(project, sentence) !in entries ==> Interpret(engine(EngineArgs(project, sentence))).Some?
      modifies this
      ensures KeyOf(project, sentence) in old(entries) ==>
                r == Ok(old(entries)[KeyOf(project, sentence)]) &&
                entries == old(entries) && engineCalls == old(engineCalls)
      ensures KeyOf(project, sentence) !in old(entries) ==>
                engineCalls == old(engineCalls) + [EngineArgs(project, sentence)] &&
                r == Interpret(engine(EngineArgs(project, sentence))).value
      ensures KeyOf(project, sentence) !in old(entries) && r.Ok? ==>
                entries == old(entries)[KeyOf(project, sentence) := r.value]
      ensures r.Err? ==> entries == old(entries)
      ensures forall k :: k in old(entries) ==> k in entries && entries[k] == old(entries)[k]
    {
      var key := KeyOf(project, sentence);
      if key in entries {
        return Ok(entries[key]);
      }
      var args := EngineArgs(project, sentence);
      engineCalls := engineCalls + [args];
      var outcome := Interpret(engine(args));
      r := outcome.value;
      if r.Ok? {
        entries := entries[key := r.value];
      }
    }

    /** The same analysis asked twice of a deterministic engine (a fixed
        function here): once the first call has succeeded the second is
        answered from the cache, with the same value and no second engine
        run; after an ambiguity the engine runs again and gives it again. */
    method AnalyzeTwice(project: Project, sentence: string, engine: seq<string> -> EngineOutput)
      returns (first: Result<AnalysisResult, AmbiguityError>, second: Result<AnalysisResult, AmbiguityError>)
      requires Interpret(engine(EngineArgs(project, sentence))).Some?
      modifies this
      ensures first.Ok? ==> second == first
      ensures first.Ok? ==>
                engineCalls == old(engineCalls) + (if KeyOf(project, sentence) in old(entries) then []
                                                   else [EngineArgs(project, sentence)])
      ensures first.Err? ==>
                second == first && engineCalls == old(engineCalls) + [EngineArgs(project, sentence), EngineArgs(project, sentence)]
    {
      first := Analyze(project, sentence, engine);
      second := Analyze(project, sentence, engine);
    }
  }
}
