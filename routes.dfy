/**
 * The two JSON endpoints of the web application: `/recommend`, which ranks the
 * occupation corpus against the user's interest profile, and `/chat`, which
 * guards and dispatches a question to the language model.
 */
module Routes {
  import opened Wrappers
  import opened Riasec
  import opened Numbers
  import DataProcessing

  // ----- /recommend -----

  /** `head(20)`: how many occupations a recommendation lists. */
  const TopJobs := 20

  /** The error of `/recommend` when the corpus could not be loaded at start-up (HTTP 500). */
  const NoDataMessage := "Server could not load data. Please check the logs."

  /** A row of the shared corpus `df_clustered_jobs`, with the `similarity` column (absent until a request writes it). */
  datatype CorpusRow = CorpusRow(job: DataProcessing.JobProfile, similarity: Option<real>)

  /** The request body: a list of ratings per category letter. */
  type Answers = map<string, seq<real>>

  /** `user_answers.get(letter, [0])` for the letter of dimension `d`. */
  function Submitted(answers: Answers, d: Dim): (xs: seq<real>)
    ensures [Letters[d]] in answers ==> xs == answers[[Letters[d]]]
    ensures [Letters[d]] !in answers ==> xs == [0.0]
  {
    if [Letters[d]] in answers then answers[[Letters[d]]] else [0.0]
  }

  /**
   * The user's profile: `np.mean` of each submitted list. The mean of an empty
   * list is NaN, which the similarity computation rejects, so then there is no profile.
   */
  function UserProfile(answers: Answers): (p: Option<Vector>)
    ensures p.Some? <==> forall d: Dim :: |Submitted(answers, d)| > 0
  {
    if forall d: Dim :: |Submitted(answers, d)| > 0 then
      Some(seq(6, d requires 0 <= d < 6 => DataProcessing.Mean(Submitted(answers, d))))
    else None
  }

  /** A dimension the request leaves out scores 0. */
  lemma UserProfileAbsent(answers: Answers, d: Dim)
    requires [Letters[d]] !in answers && UserProfile(answers).Some?
    ensures UserProfile(answers).value[d] == 0.0
  {
    assert Submitted(answers, d) == [0.0];
    assert DataProcessing.SumReals([0.0]) == DataProcessing.SumReals([]) + 0.0;
  }

  /** A submitted dimension scores between its smallest and largest rating. */
  lemma UserProfileBounds(answers: Answers, d: Dim, lo: real, hi: real)
    requires [Letters[d]] in answers && UserProfile(answers).Some?
    requires forall i :: 0 <= i < |answers[[Letters[d]]]| ==> lo <= answers[[Letters[d]]][i] <= hi
    ensures lo <= UserProfile(answers).value[d] <= hi
  {
    assert |Submitted(answers, d)| > 0;
    DataProcessing.MeanBounds(answers[[Letters[d]]], lo, hi);
  }

  /** Every corpus row has its six score columns. */
  predicate WellFormed(rows: seq<CorpusRow>) {
    forall i :: 0 <= i < |rows| ==> |rows[i].job.scores| == 6
  }

  /**
   * `cosine_similarity(user_vector, job_scores.values)[0]`, with `sim` standing
   * for the cosine of two vectors and `job_scores` the corpus scores with missing values read as 0.
   */
  function Similarities(rows: seq<CorpusRow>, user: Vector, sim: (Vector, Vector) -> real): (s: seq<real>)
    requires WellFormed(rows)
    ensures |s| == |rows|
  {
    seq(|rows|, i requires 0 <= i < |rows| => sim(user, DataProcessing.ScoreVector(rows[i].job.scores)))
  }

  /** The occupation scores with every missing value replaced by 0 (`fillna(0)`). */
  function ZeroFilled(scores: seq<Option<real>>): (r: seq<Option<real>>)
    ensures |r| == |scores| && forall d :: 0 <= d < |r| ==> r[d].Some?
  {
    seq(|scores|, d requires 0 <= d < |scores| => Some(scores[d].GetOr(0.0)))
  }

  /** A missing occupation score weighs exactly as a score of 0 in the ranking. */
  lemma MissingScoresAreZero(rows: seq<CorpusRow>, user: Vector, sim: (Vector, Vector) -> real)
    requires WellFormed(rows)
    ensures var filled := seq(|rows|, i requires 0 <= i < |rows| => rows[i].(job := rows[i].job.(scores := ZeroFilled(rows[i].job.scores))));
      WellFormed(filled) && Similarities(filled, user, sim) == Similarities(rows, user, sim)
  {
    var filled := seq(|rows|, i requires 0 <= i < |rows| => rows[i].(job := rows[i].job.(scores := ZeroFilled(rows[i].job.scores))));
    forall i | 0 <= i < |rows|
      ensures DataProcessing.ScoreVector(filled[i].job.scores) == DataProcessing.ScoreVector(rows[i].job.scores)
    {
      var a, b := DataProcessing.ScoreVector(filled[i].job.scores), DataProcessing.ScoreVector(rows[i].job.scores);
      assert forall d: Dim :: a[d] == b[d];
    }
  }

  /**
   * `sort_values(by="similarity", ascending=False).head(k)` as a list of corpus
   * positions: `min(k, |v|)` distinct positions in non-increasing value, and no
   * position left out has a larger value than any listed one. Ties may come in any order.
   */
  predicate IsTopK(v: seq<real>, k: nat, idx: seq<nat>) {
    |idx| == Min(k, |v|)
    && (forall t :: 0 <= t < |idx| ==> idx[t] < |v|)
    && (forall s, t :: 0 <= s < t < |idx| ==> idx[s] != idx[t] && v[idx[s]] >= v[idx[t]])
    && (forall j, t :: 0 <= j < |v| && 0 <= t < |idx| && j !in idx ==> v[j] <= v[idx[t]])
  }

  /** The position in `rest` of a largest value of `v` among the positions `rest` lists. */
  method Pick(v: seq<real>, rest: seq<nat>) returns (p: nat)
    requires |rest| > 0 && forall q :: 0 <= q < |rest| ==> rest[q] < |v|
    ensures p < |rest| && forall q :: 0 <= q < |rest| ==> v[rest[q]] <= v[rest[p]]
  {
    p := 0;
    var q := 1;
    while q < |rest|
      invariant p < q <= |rest|
      invariant forall q' :: 0 <= q' < q ==> v[rest[q']] <= v[rest[p]]
    {
      if v[rest[q]] > v[rest[p]] {
        p := q;
      }
      q := q + 1;
    }
  }

  /** The `k` best positions of `v`, picked one at a time from the positions not yet listed. */
  method TopK(v: seq<real>, k: nat) returns (idx: seq<nat>)
    ensures IsTopK(v, k, idx)
  {
    idx := [];
    var rest: seq<nat> := seq(|v|, j requires 0 <= j < |v| => j);
    forall j | 0 <= j < |v| ensures j in rest {
      assert rest[j] == j;
    }
    while |idx| < Min(k, |v|)
      invariant |idx| + |rest| == |v| && |idx| <= Min(k, |v|)
      invariant forall q :: 0 <= q < |rest| ==> rest[q] < |v|
      invariant forall a, b :: 0 <= a < b < |rest| ==> rest[a] != rest[b]
      invariant forall t :: 0 <= t < |idx| ==> idx[t] < |v| && idx[t] !in rest
      invariant forall j :: 0 <= j < |v| && j !in idx ==> j in rest
      invariant forall s, t :: 0 <= s < t < |idx| ==> idx[s] != idx[t] && v[idx[s]] >= v[idx[t]]
      invariant forall q, t :: 0 <= q < |rest| && 0 <= t < |idx| ==> v[rest[q]] <= v[idx[t]]
    {
      var p := Pick(v, rest);
      var best := rest[p];
      idx := idx + [best];
      rest := rest[..p] + rest[p + 1..];
    }
  }

  /** An entry of the `recommendations` list. */
  datatype Recommendation = Recommendation(
    title: string, clusterName: Option<string>, similarity: real,
    knowledge: seq<string>, skills: seq<string>, abilities: seq<string>)

  /** `map.get(code, [])`. */
  function Lookup(m: map<string, seq<string>>, code: string): seq<string> {
    if code in m then m[code] else []
  }

  /** The entry for one corpus row whose similarity has been written. */
  function RowFor(row: CorpusRow, km: map<string, seq<string>>, sm: map<string, seq<string>>, am: map<string, seq<string>>): Recommendation
    requires row.similarity.Some?
  {
    Recommendation(row.job.title, row.job.clusterName, row.similarity.value,
      Lookup(km, row.job.code), Lookup(sm, row.job.code), Lookup(am, row.job.code))
  }

  /** The loop over `top_jobs.iterrows()` that appends one entry per ranked row, in rank order. */
  method AssembleRows(
    rows: seq<CorpusRow>, top: seq<nat>,
    km: map<string, seq<string>>, sm: map<string, seq<string>>, am: map<string, seq<string>>)
    returns (recs: seq<Recommendation>)
    requires forall t :: 0 <= t < |top| ==> top[t] < |rows| && rows[top[t]].similarity.Some?
    ensures |recs| == |top|
    ensures forall t :: 0 <= t < |top| ==>
      var row := rows[top[t]];
      recs[t].title == row.job.title && recs[t].clusterName == row.job.clusterName
      && recs[t].similarity == row.similarity.value
      && recs[t].knowledge == (if row.job.code in km then km[row.job.code] else [])
      && recs[t].skills == (if row.job.code in sm then sm[row.job.code] else [])
      && recs[t].abilities == (if row.job.code in am then am[row.job.code] else [])
  {
    recs := [];
    for t := 0 to |top|
      invariant |recs| == t
      invariant forall u :: 0 <= u < t ==> recs[u] == RowFor(rows[top[u]], km, sm, am)
    {
      recs := recs + [RowFor(rows[top[t]], km, sm, am)];
    }
  }

  /** What `/recommend` answers. */
  datatype RecommendReply =
    | Recommended(rows: seq<Recommendation>)
    | NoData          // the corpus failed to load: HTTP 500 with `NoDataMessage`
    | Crashed         // an exception escapes the handler (an empty answer list): Flask's HTTP 500

  /** The HTTP status of a reply: only a ranking is a success. */
  function RecommendStatus(r: RecommendReply): (status: nat)
    ensures status == 200 <==> r.Recommended?
    ensures status == 500 <==> !r.Recommended?
  {
    if r.Recommended? then 200 else 500
  }

  /** The application object: the corpus and the three competency maps loaded at start-up. */
  class App {
    var corpus: array?<CorpusRow>
    var knowledgeMap: map<string, seq<string>>
    var skillsMap: map<string, seq<string>>
    var abilitiesMap: map<string, seq<string>>

    /**
     * The data part of `create_app`: the result of `load_and_prepare_data`
     * becomes the corpus, without a similarity column yet, and the three maps.
     * A failed load leaves no corpus (the maps are then never read).
     */
    constructor (loaded: Option<DataProcessing.Prepared>)
      requires loaded.Some? ==> DataProcessing.Shaped(loaded.value)
      ensures Valid()
      ensures loaded.None? ==> corpus == null
      ensures loaded.Some? ==>
        corpus != null && fresh(corpus) && corpus.Length == |loaded.value.jobs|
        && (forall i :: 0 <= i < corpus.Length ==> corpus[i] == CorpusRow(loaded.value.jobs[i], None))
        && knowledgeMap == loaded.value.knowledge && skillsMap == loaded.value.skills
        && abilitiesMap == loaded.value.abilities
    {
      if loaded.None? {
        corpus := null;
        knowledgeMap, skillsMap, abilitiesMap := map[], map[], map[];
      } else {
        var p := loaded.value;
        corpus := new CorpusRow[|p.jobs|](i requires 0 <= i < |p.jobs| => CorpusRow(p.jobs[i], None));
        knowledgeMap, skillsMap, abilitiesMap := p.knowledge, p.skills, p.abilities;
      }
    }

    /** A loaded corpus has its score columns and at least one row per KMeans cluster. */
    predicate Valid()
      reads this, corpus
    {
      corpus != null ==> WellFormed(corpus[..]) && corpus.Length >= DataProcessing.ClusterCount
    }

    /**
     * `recommend`: a missing corpus is reported before anything is computed; otherwise
     * the user's profile is ranked against every occupation, the similarity column of
     * the shared corpus is overwritten in place, and the 20 best rows are listed
     * with their competencies. `top` names the ranked corpus positions.
     */
    method Recommend(answers: Answers, sim: (Vector, Vector) -> real) returns (reply: RecommendReply, ghost top: seq<nat>)
      requires Valid()
      modifies corpus
      ensures Valid()
      ensures RecommendStatus(reply) == 200 <==> corpus != null && UserProfile(answers).Some?
      ensures corpus == null ==> reply == NoData
      ensures corpus != null && UserProfile(answers).None? ==> reply == Crashed && corpus[..] == old(corpus[..])
      ensures corpus != null && UserProfile(answers).Some? ==>
        var sims := Similarities(old(corpus[..]), UserProfile(answers).value, sim);
        (forall i :: 0 <= i < corpus.Length ==> corpus[i] == old(corpus[i]).(similarity := Some(sims[i])))
        && IsTopK(sims, TopJobs, top)
        && reply.Recommended? && |reply.rows| == |top|
        && forall t :: 0 <= t < |top| ==> reply.rows[t] == RowFor(corpus[top[t]], knowledgeMap, skillsMap, abilitiesMap)
    {
      top := [];
      if corpus == null {
        return NoData, top;
      }
      var user := UserProfile(answers);
      if user.None? {
        return Crashed, top;
      }
      var sims := Similarities(corpus[..], user.value, sim);
      forall i | 0 <= i < corpus.Length {
        corpus[i] := corpus[i].(similarity := Some(sims[i]));
      }
      var order := TopK(sims, TopJobs);
      var rows := AssembleRows(corpus[..], order, knowledgeMap, skillsMap, abilitiesMap);
      top := order;
      reply := Recommended(rows);
    }
  }

  /**
   * `create_app`'s data step: the app is built from `load_and_prepare_data`, so
   * it satisfies `Valid` and `Recommend` may be called on it. It has a corpus
   * exactly when the load succeeded, holding the prepared jobs in order.
   */
  method CreateApp(
    jobsFile: Option<seq<DataProcessing.Job>>, interestsFile: Option<seq<DataProcessing.InterestRow>>,
    kmeans: seq<Vector> -> DataProcessing.Clustering,
    kf: DataProcessing.CompetencyFile, sf: DataProcessing.CompetencyFile, af: DataProcessing.CompetencyFile)
    returns (app: App)
    ensures fresh(app) && app.Valid()
    ensures var loaded := DataProcessing.LoadAndPrepare(jobsFile, interestsFile, kmeans, kf, sf, af);
      (app.corpus == null <==> loaded.None?)
      && (loaded.Some? ==>
        app.corpus.Length == |loaded.value.jobs|
        && forall i :: 0 <= i < app.corpus.Length ==> app.corpus[i] == CorpusRow(loaded.value.jobs[i], None))
  {
    var loaded := DataProcessing.LoadAndPrepare(jobsFile, interestsFile, kmeans, kf, sf, af);
    if loaded.Some? {
      DataProcessing.LoadAndPrepareShaped(jobsFile, interestsFile, kmeans, kf, sf, af);
    }
    app := new App(loaded);
  }

  // ----- /chat -----

  const NoLlmMessage := "LLM client is not configured on the server."
  const NoCollectionMessage := "ONET collection is not configured on the server."
  const MissingInputMessage := "Question and profile summary are required."
  const UnexpectedMessage := "An unexpected server error occurred."

  /** How the call to the language model ends. */
  datatype AiResult =
    | Answered(text: string)
    | RaisedValueError(message: string)   // `str(e)` of the ValueError
    | RaisedOther                         // any other exception

  /** What `/chat` answers: the model's answer (HTTP 200) or an error with its status. */
  datatype ChatReply = Answer(text: string) | ChatError(status: nat, message: string)

  /** A JSON field is truthy when it is present and not the empty string. */
  predicate Given(field: Option<string>) {
    field.Some? && field.value != ""
  }

  /**
   * `chat`: the LLM client is checked first, then the collection, then the two
   * inputs, and only then is the model asked (`ai` stands for `get_ai_response`
   * on the question and the summary).
   */
  function Chat(llm: bool, collection: bool, question: Option<string>, summary: Option<string>, ai: (string, string) -> AiResult): (r: ChatReply)
    ensures !llm ==> r == ChatError(500, NoLlmMessage)
    ensures llm && !collection ==> r == ChatError(500, NoCollectionMessage)
    ensures llm && collection && !(Given(question) && Given(summary)) ==> r == ChatError(400, MissingInputMessage)
    ensures llm && collection && Given(question) && Given(summary) ==>
      match ai(question.value, summary.value)
      case Answered(text) => r == Answer(text)
      case RaisedValueError(message) => r == ChatError(500, message)
      case RaisedOther => r == ChatError(500, UnexpectedMessage)
  {
    if !llm then ChatError(500, NoLlmMessage)
    else if !collection then ChatError(500, NoCollectionMessage)
    else if !Given(question) || !Given(summary) then ChatError(400, MissingInputMessage)
    else
      match ai(question.value, summary.value)
      case Answered(text) => Answer(text)
      case RaisedValueError(message) => ChatError(500, message)
      case RaisedOther => ChatError(500, UnexpectedMessage)
  }

  /** A 400 comes only from missing input, and only once both clients are configured. */
  lemma ChatBadRequest(llm: bool, collection: bool, question: Option<string>, summary: Option<string>, ai: (string, string) -> AiResult)
    ensures var r := Chat(llm, collection, question, summary, ai);
      (r.ChatError? && r.status == 400) <==> llm && collection && !(Given(question) && Given(summary))
  {
  }

  /** When a guard fails, the language model is not consulted: the reply does not depend on it. */
  lemma ChatGuardsSkipModel(llm: bool, collection: bool, question: Option<string>, summary: Option<string>, ai1: (string, string) -> AiResult, ai2: (string, string) -> AiResult)
    requires !(llm && collection && Given(question) && Given(summary))
    ensures Chat(llm, collection, question, summary, ai1) == Chat(llm, collection, question, summary, ai2)
  {
  }
}
