/**
 * The catalogue of models the server can load (model/SupportedModel.py):
 * a model description whose construction checks two size limits, the map
 * from weight quantisation to key/value-cache kind, the dictionary form
 * written to the active-model file and read back, and lookup by name.
 */
module SupportedModels {
  import opened Wrappers

  const KB: int := 1024

  /** The default of the constructor's `max_context_theory` argument. */
  const DEFAULT_MAX_CONTEXT_THEORY: int := 128 * KB

  /** `config.MODEL_DIR` */
  const MODEL_DIR: string := "/home/ksolomon/git/models/"

  datatype SupportedModel = SupportedModel(
    name: string,
    path: string,
    quant: int,
    maxSeqLen: int,
    promptLimit: int,
    responseLimit: int,
    maxContextTheory: int)

  /** The two `ValueError`s the constructor raises, in the order it checks them. */
  datatype ModelError =
    | SeqLenAboveTheory(maxContextTheory: int)
    | OneShotDoesNotFit(maxSeqLen: int)

  /** What every constructed model satisfies. */
  predicate Valid(m: SupportedModel) {
    && m.maxSeqLen <= m.maxContextTheory
    && m.promptLimit + m.responseLimit <= m.maxSeqLen
  }

  /** `SupportedModel(name, path, quant, max_seq_len, prompt_limit, response_limit, max_context_theory)` */
  function NewModel(name: string, path: string, quant: int, maxSeqLen: int,
                    promptLimit: int, responseLimit: int, maxContextTheory: int)
    : (r: Result<SupportedModel, ModelError>)
    ensures r.Ok? <==> maxSeqLen <= maxContextTheory && promptLimit + responseLimit <= maxSeqLen
    ensures r.Ok? ==> Valid(r.value)
    ensures r.Ok? ==> r.value == SupportedModel(name, path, quant, maxSeqLen, promptLimit,
                                                responseLimit, maxContextTheory)
    ensures maxSeqLen > maxContextTheory ==> r == Err(SeqLenAboveTheory(maxContextTheory))
    ensures maxSeqLen <= maxContextTheory && promptLimit + responseLimit > maxSeqLen
      ==> r == Err(OneShotDoesNotFit(maxSeqLen))
  {
    if maxSeqLen > maxContextTheory then Err(SeqLenAboveTheory(maxContextTheory))
    else if promptLimit + responseLimit > maxSeqLen then Err(OneShotDoesNotFit(maxSeqLen))
    else Ok(SupportedModel(name, path, quant, maxSeqLen, promptLimit, responseLimit, maxContextTheory))
  }

  /** The dictionary `to_dict` produces: every field but `max_context_theory`. */
  datatype ModelDict = ModelDict(
    name: string,
    path: string,
    quant: int,
    maxSeqLen: int,
    promptLimit: int,
    responseLimit: int)

  function ToDict(m: SupportedModel): ModelDict
  {
    ModelDict(m.name, m.path, m.quant, m.maxSeqLen, m.promptLimit, m.responseLimit)
  }

  /** `SupportedModel(**data)`, as `get_active_model` rebuilds the active model. */
  function FromDict(d: ModelDict): Result<SupportedModel, ModelError>
  {
    NewModel(d.name, d.path, d.quant, d.maxSeqLen, d.promptLimit, d.responseLimit,
             DEFAULT_MAX_CONTEXT_THEORY)
  }

  /**
   * Rebuilding a valid model from its dictionary keeps every stored field and
   * resets `max_context_theory` to its default; it fails exactly when the
   * model's `max_seq_len` exceeds that default.
   */
  lemma DictRoundTrip(m: SupportedModel)
    requires Valid(m)
    ensures FromDict(ToDict(m)).Ok? <==> m.maxSeqLen <= DEFAULT_MAX_CONTEXT_THEORY
    ensures FromDict(ToDict(m)).Ok? ==>
      FromDict(ToDict(m)).value == m.(maxContextTheory := DEFAULT_MAX_CONTEXT_THEORY)
    ensures !FromDict(ToDict(m)).Ok? ==>
      FromDict(ToDict(m)) == Err(SeqLenAboveTheory(DEFAULT_MAX_CONTEXT_THEORY))
  {
  }

  /** The exllamav2 cache classes `get_cache` chooses between. */
  datatype CacheKind = CacheQ4 | CacheQ6 | CacheQ8 | CacheFP16

  /** The quantisation width each cache kind stands for. */
  function CacheBits(k: CacheKind): int
  {
    match k
    case CacheQ4 => 4
    case CacheQ6 => 6
    case CacheQ8 => 8
    case CacheFP16 => 16
  }

  /** `get_cache`: the `ValueError` for an unsupported quantisation carries it. */
  function GetCache(m: SupportedModel): (r: Result<CacheKind, int>)
    ensures r.Ok? <==> m.quant in {4, 6, 8, 16}
    ensures r.Ok? ==> CacheBits(r.value) == m.quant
    ensures r.Err? ==> r.error == m.quant
  {
    if m.quant == 4 then Ok(CacheQ4)
    else if m.quant == 6 then Ok(CacheQ6)
    else if m.quant == 8 then Ok(CacheQ8)
    else if m.quant == 16 then Ok(CacheFP16)
    else Err(m.quant)
  }

  /** Each cache kind is chosen by exactly one quantisation. */
  lemma GetCacheInverse(k: CacheKind, m: SupportedModel)
    requires m.quant == CacheBits(k)
    ensures GetCache(m) == Ok(k)
  {
  }

  /** `SUPPORTED_MODELS`, the entries that are not commented out. */
  const SUPPORTED_MODELS: seq<SupportedModel> := [
    SupportedModel("Qwen-72b-Q4", MODEL_DIR + "/Qwen2.5-72B-Instruct-Q4",
                   16, 20 * KB, 4 * KB, 4 * KB, DEFAULT_MAX_CONTEXT_THEORY),
    SupportedModel("Qwen-Coder-32B-Q4", MODEL_DIR + "/Qwen2.5-Coder-32B-Instruct-Q4",
                   16, 100 * KB, 8 * KB, 8 * KB, DEFAULT_MAX_CONTEXT_THEORY),
    SupportedModel("Qwen-Coder-14B", MODEL_DIR + "/Qwen2.5-Coder-14B-Instruct",
                   16, 128 * KB, 8 * KB, 8 * KB, DEFAULT_MAX_CONTEXT_THEORY),
    SupportedModel("Qwen-Coder-14B-Q8", MODEL_DIR + "/Qwen2.5-Coder-14B-Instruct-Q8",
                   16, 128 * KB, 8 * KB, 8 * KB, DEFAULT_MAX_CONTEXT_THEORY),
    SupportedModel("QwQ-32B-Q4", MODEL_DIR + "/QwQ-32B-Q4",
                   16, 57 * KB, 16 * KB, 8 * KB, DEFAULT_MAX_CONTEXT_THEORY),
    SupportedModel("QwQ-32B-Q8", MODEL_DIR + "/QwQ-32B-Q8",
                   16, 16 * KB, 4 * KB, 8 * KB, DEFAULT_MAX_CONTEXT_THEORY)
  ]

  /**
   * Every catalogue entry is what the constructor builds from its arguments
   * (so it passes both checks), its cache kind exists, and it survives the
   * dictionary round trip unchanged.
   */
  lemma CatalogueWellFormed()
    ensures forall i :: 0 <= i < |SUPPORTED_MODELS| ==>
      var m := SUPPORTED_MODELS[i];
      && NewModel(m.name, m.path, m.quant, m.maxSeqLen, m.promptLimit, m.responseLimit,
                  DEFAULT_MAX_CONTEXT_THEORY) == Ok(m)
      && GetCache(m) == Ok(CacheFP16)
      && FromDict(ToDict(m)) == Ok(m)
  {
    forall i | 0 <= i < |SUPPORTED_MODELS|
      ensures var m := SUPPORTED_MODELS[i];
        && NewModel(m.name, m.path, m.quant, m.maxSeqLen, m.promptLimit, m.responseLimit,
                    DEFAULT_MAX_CONTEXT_THEORY) == Ok(m)
        && GetCache(m) == Ok(CacheFP16)
        && FromDict(ToDict(m)) == Ok(m)
    {
      DictRoundTrip(SUPPORTED_MODELS[i]);
    }
  }

  /** `get_supported_models`: the catalogue's names, in catalogue order. */
  method GetSupportedModels() returns (res: seq<string>)
    ensures |res| == |SUPPORTED_MODELS|
    ensures forall i :: 0 <= i < |res| ==> res[i] == SUPPORTED_MODELS[i].name
  {
    res := [];
    var k := 0;
    while k < |SUPPORTED_MODELS|
      invariant 0 <= k <= |SUPPORTED_MODELS|
      invariant |res| == k
      invariant forall i :: 0 <= i < k ==> res[i] == SUPPORTED_MODELS[i].name
    {
      res := res + [SUPPORTED_MODELS[k].name];
      k := k + 1;
    }
  }

  /** The first model of `models` called `name`, if any. */
  function FirstNamed(models: seq<SupportedModel>, name: string): (r: Option<SupportedModel>)
    ensures r.Some? ==> r.value.name == name
    ensures r.Some? ==> exists i :: (0 <= i < |models| && models[i] == r.value
                                     && forall j :: 0 <= j < i ==> models[j].name != name)
    ensures r.None? <==> forall i :: 0 <= i < |models| ==> models[i].name != name
  {
    if models == [] then None
    else if models[0].name == name then Some(models[0])
    else
      var r := FirstNamed(models[1..], name);
      assert r.Some? ==> exists i :: (1 <= i < |models| && models[i] == r.value
                                      && forall j :: 1 <= j < i ==> models[j].name != name);
      r
  }

  /** `get_model_by_name` */
  function GetModelByName(name: string): (r: Option<SupportedModel>)
    ensures r.Some? ==> r.value in SUPPORTED_MODELS && r.value.name == name
    ensures r.None? <==> forall m :: m in SUPPORTED_MODELS ==> m.name != name
  {
    FirstNamed(SUPPORTED_MODELS, name)
  }
}
