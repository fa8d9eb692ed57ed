/** The embedding backend as the engine sees it: the optional
    `transformers` global, the model its `pipeline` loads, and the two
    fields `initialized` and `model` that lazy initialisation sets. */
module Backend {
  import opened Wrappers
  import opened Records

  /** A loaded feature-extraction model, called with mean pooling and
      normalisation, given by the embeddings it produces: a text outside
      the table makes the call throw. */
  type Embedder = map<string, seq<real>>

  /** `await this.model(text, { pooling: 'mean', normalize: true })`:
      the embedding, or None when the call throws. */
  function Output(f: Embedder, text: string): Option<seq<real>>
  {
    if text in f then Some(f[text]) else None
  }

  /** What awaiting `pipeline('feature-extraction', ...)` does. */
  datatype Load = Loaded(model: Embedder) | LoadThrows

  /** The `transformers` global: undefined, or present with its loader. */
  datatype Transformers = Undefined | Present(load: Load)

  /** The engine's two fields. */
  datatype EngineState = EngineState(initialized: bool, model: Option<Embedder>)

  /** The state `initialize()` leaves behind: nothing changes when already
      initialised, when the global is undefined or when loading throws;
      a successful load stores the model and latches `initialized`. */
  function LazyInit(s: EngineState, t: Transformers): EngineState
  {
    if s.initialized then s
    else
      match t
      case Undefined => s
      case Present(LoadThrows) => s
      case Present(Loaded(m)) => EngineState(true, Some(m))
  }

  /** What `initialize()` returns. */
  function InitResult(s: EngineState, t: Transformers): bool
  {
    s.initialized || (t.Present? && t.load.Loaded?)
  }

  /** What `embed(text)` yields once lazy initialisation has left model `m`. */
  function EmbedResult(m: Option<Embedder>, text: string): Result<seq<real>, Error>
  {
    match m
    case None => Failure(ModelUnavailable)
    case Some(f) =>
      match Output(f, text)
      case None => Failure(EmbeddingFailed)
      case Some(v) => Success(v)
  }

  /** The states the engine reaches from its constructor: initialised
      exactly when a model is held. */
  predicate Consistent(s: EngineState)
  {
    s.initialized == s.model.Some?
  }

  /** Lazy initialisation is idempotent, which is why `embed` may repeat it
      inside `search` without changing anything. */
  lemma LazyInitIdempotent(s: EngineState, t: Transformers)
    ensures LazyInit(LazyInit(s, t), t) == LazyInit(s, t)
  {
  }

  /** `initialize()` returns true exactly when `initialized` is set
      afterwards; it only latches after a successful load. */
  lemma InitResultLatches(s: EngineState, t: Transformers)
    ensures InitResult(s, t) == LazyInit(s, t).initialized
    ensures LazyInit(s, t).initialized && !s.initialized ==> t.Present? && t.load.Loaded?
    ensures !InitResult(s, t) ==> LazyInit(s, t) == s
  {
  }

  /** From a consistent state, lazy initialisation keeps the state consistent,
      and a model is present afterwards exactly when `initialize()` returned true. */
  lemma LazyInitConsistent(s: EngineState, t: Transformers)
    requires Consistent(s)
    ensures Consistent(LazyInit(s, t))
    ensures LazyInit(s, t).model.Some? == InitResult(s, t)
  {
  }
}
