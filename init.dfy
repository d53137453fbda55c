/**
 * Engine bootstrap state (model/init.py): the process-wide `ModelState`
 * flags, the replay of saved interaction files into the key/value cache, and
 * the final state `load_model` leaves behind. The exllamav2 engine itself is
 * not modelled: what it is fed is returned, what it reports is an argument.
 */
module Init {
  import opened Wrappers
  import opened Text
  import SupportedModels

  /** A conversation directory `users/{username}/sessions/{name}`. */
  datatype SessionDir = SessionDir(username: string, name: string)

  /** The `ExLlamaV2Config` fields `load_model` sets from the active model. */
  datatype EngineConfig = EngineConfig(
    modelDir: string,
    maxSeqLen: int,
    maxBatchSize: int,
    maxOutputLen: int,
    maxInputLen: int)

  /** The fields of the global `ModelState` class that the server's logic reads and writes. */
  class ModelState {
    var modelReady: bool
    var sessionActive: bool
    var sessionIds: seq<int>
    var sessionDir: Option<SessionDir>
    var saveInteractions: bool
    var engineConfig: Option<EngineConfig>
    /** `settings.eos_token_id` */
    var eosTokenId: Option<int>
    /** `settings.length` */
    var responseLength: Option<int>

    /** The class-level defaults, before `load_model` runs. */
    constructor ()
      ensures !modelReady && !sessionActive && !saveInteractions
      ensures sessionIds == [] && sessionDir == None
      ensures engineConfig == None && eosTokenId == None && responseLength == None
    {
      modelReady := false;
      sessionActive := false;
      sessionIds := [];
      sessionDir := None;
      saveInteractions := false;
      engineConfig := None;
      eosTokenId := None;
      responseLength := None;
    }

    /**
     * `load_model`: a missing active model fails on its first attribute
     * access, before anything is assigned; otherwise the engine is configured
     * from the model, the EOS id falls back to the configured one, the token
     * sequence is emptied and the model is marked ready.
     */
    method LoadModel(active: Option<SupportedModels.SupportedModel>,
                     tokenizerEos: Option<int>, configEos: int, responseLimit: int)
      returns (ok: bool)
      modifies this
      ensures ok <==> active.Some?
      ensures !ok ==> unchanged(this)
      ensures ok ==> && engineConfig == Some(EngineConfig(active.value.path, active.value.maxSeqLen,
                                                          4, active.value.responseLimit,
                                                          active.value.promptLimit))
                     && eosTokenId == Some(EosTokenId(tokenizerEos, configEos))
                     && responseLength == Some(responseLimit)
                     && sessionIds == [] && modelReady
                     && sessionActive == old(sessionActive) && sessionDir == old(sessionDir)
                     && saveInteractions == old(saveInteractions)
    {
      if active.None? {
        return false;
      }
      var m := active.value;
      engineConfig := Some(EngineConfig(m.path, m.maxSeqLen, 4, m.responseLimit, m.promptLimit));
      responseLength := Some(responseLimit);
      eosTokenId := Some(EosTokenId(tokenizerEos, configEos));
      sessionIds := [];
      modelReady := true;
      ok := true;
    }
  }

  /**
   * `int(tokenizer.eos_token_id or config.EOS_TOKEN_ID)`: the tokenizer's
   * id unless it is missing or zero (both falsy in Python).
   */
  function EosTokenId(tokenizerEos: Option<int>, configEos: int): (id: int)
    ensures id == configEos || Some(id) == tokenizerEos
    ensures id == 0 ==> configEos == 0
  {
    if tokenizerEos.Some? && tokenizerEos.value != 0 then tokenizerEos.value else configEos
  }

  /** The EOS id falls back exactly when the tokenizer's id is falsy. */
  lemma EosFallback(tokenizerEos: Option<int>, configEos: int)
    requires tokenizerEos != Some(configEos)
    ensures EosTokenId(tokenizerEos, configEos) == configEos
        <==> tokenizerEos == None || tokenizerEos == Some(0)
  {
  }

  // ---------------------------------------------------------------------------
  // Interaction replay (load_session_into_cache)

  /**
   * One entry of the session directory: its file name, its modification
   * time (a whole number here), and the two tensors `load_file` finds in it,
   * if any.
   */
  datatype InteractionFile = InteractionFile(
    name: string,
    mtime: int,
    promptIds: Option<seq<int>>,
    responseIds: Option<seq<int>>)

  const SAFETENSORS_SUFFIX: string := ".safetensors"

  /** `Path(name).stem` for a name that ends in `.safetensors`. */
  function Stem(name: string): (stem: string)
    requires EndsWith(name, SAFETENSORS_SUFFIX)
    ensures |name| > |SAFETENSORS_SUFFIX| ==> stem + SAFETENSORS_SUFFIX == name
    ensures |name| == |SAFETENSORS_SUFFIX| ==> stem == name
  {
    var cut := |name| - |SAFETENSORS_SUFFIX|;
    if cut == 0 then name else name[..cut]
  }

  /** Python's `int(s)`: optional white space, an optional sign and ASCII digits. */
  function ParseInt(s: string): Option<int>
  {
    var t := Strip(s);
    if t != [] && (t[0] == '+' || t[0] == '-') then
      if IsDigitName(t[1..]) then
        Some(if t[0] == '-' then -(DigitValue(t[1..]) as int) else DigitValue(t[1..]))
      else None
    else if IsDigitName(t) then Some(DigitValue(t))
    else None
  }

  /** `int(str(n)) == n` for the parser above. */
  lemma ParseDecimal(n: nat)
    ensures ParseInt(DecimalString(n)) == Some(n)
  {
    DecimalRoundTrip(n);
    var s := DecimalString(n);
    StripDigitName(s);
    assert IsDigit(s[0]);
  }

  /** The text after the last `_` (`s.split("_")[-1]`). */
  function AfterLastUnderscore(s: string): (t: string)
    ensures '_' !in t
    ensures '_' in s ==> exists i :: 0 <= i < |s| && s[i] == '_' && t == s[i + 1..]
    ensures '_' !in s ==> t == s
  {
    if s == [] then s
    else if s[|s| - 1] == '_' then []
    else
      var t := AfterLastUnderscore(s[..|s| - 1]);
      assert '_' in s[..|s| - 1] <==> '_' in s;
      if '_' in s then
        var i :| 0 <= i < |s| - 1 && s[..|s| - 1][i] == '_' && t == s[..|s| - 1][i + 1..];
        assert s[i + 1..] == t + [s[|s| - 1]];
        t + [s[|s| - 1]]
      else s
  }

  /**
   * The sort key: the integer after the last `_` of the stem when the stem
   * has one (a `ValueError` when that text is not an integer), otherwise the
   * modification time.
   */
  function SortKey(f: InteractionFile): (k: Option<int>)
    requires EndsWith(f.name, SAFETENSORS_SUFFIX)
    ensures '_' !in Stem(f.name) ==> k == Some(f.mtime)
    ensures '_' in Stem(f.name) ==> k == ParseInt(AfterLastUnderscore(Stem(f.name)))
  {
    var stem := Stem(f.name);
    if '_' in stem then ParseInt(AfterLastUnderscore(stem)) else Some(f.mtime)
  }

  /** The text after the last `_` is whatever follows a final `_`-free segment. */
  lemma AfterLastUnderscoreOf(front: string, last: string)
    requires '_' !in last
    ensures AfterLastUnderscore(front + "_" + last) == last
  {
    var s := front + "_" + last;
    var t := AfterLastUnderscore(s);
    assert s[|front|] == '_';
    var i :| 0 <= i < |s| && s[i] == '_' && t == s[i + 1..];
    assert i == |front|;
    assert s[|front| + 1..] == last;
  }

  /**
   * An interaction file named `<prefix>_<n>.safetensors` sorts by `n`,
   * whatever its modification time.
   */
  lemma SortKeyOfNumbered(prefix: string, n: nat, f: InteractionFile)
    requires f.name == prefix + "_" + DecimalString(n) + SAFETENSORS_SUFFIX
    ensures EndsWith(f.name, SAFETENSORS_SUFFIX)
    ensures SortKey(f) == Some(n)
  {
    var digits := DecimalString(n);
    DecimalRoundTrip(n);
    assert forall i :: 0 <= i < |digits| ==> digits[i] != '_' by {
      forall i | 0 <= i < |digits| ensures digits[i] != '_' {
        assert IsDigit(digits[i]);
      }
    }
    var stem := prefix + "_" + digits;
    assert f.name == stem + SAFETENSORS_SUFFIX;
    assert f.name[|f.name| - |SAFETENSORS_SUFFIX|..] == SAFETENSORS_SUFFIX;
    assert Stem(f.name) == stem;
    assert stem[|prefix|] == '_';
    AfterLastUnderscoreOf(prefix, digits);
    ParseDecimal(n);
  }

  /** `session_path.glob("*.safetensors")`, in directory order. */
  function Globbed(listing: seq<InteractionFile>): (files: seq<InteractionFile>)
    ensures forall i :: 0 <= i < |files| ==> EndsWith(files[i].name, SAFETENSORS_SUFFIX)
    ensures forall f :: f in files <==> f in listing && EndsWith(f.name, SAFETENSORS_SUFFIX)
  {
    if listing == [] then []
    else
      var rest := Globbed(listing[1..]);
      if EndsWith(listing[0].name, SAFETENSORS_SUFFIX) then [listing[0]] + rest else rest
  }

  datatype Keyed = Keyed(key: int, file: InteractionFile)

  /** The keys of every file, or None when one of them raises. */
  function KeyAll(files: seq<InteractionFile>): (r: Option<seq<Keyed>>)
    requires forall i :: 0 <= i < |files| ==> EndsWith(files[i].name, SAFETENSORS_SUFFIX)
    ensures r.Some? <==> forall i :: 0 <= i < |files| ==> SortKey(files[i]).Some?
    ensures r.Some? ==> |r.value| == |files|
    ensures r.Some? ==> forall i :: 0 <= i < |files| ==> r.value[i] == Keyed(SortKey(files[i]).value, files[i])
  {
    if files == [] then Some([])
    else
      var k := SortKey(files[0]);
      var rest := KeyAll(files[1..]);
      assert forall i :: 1 <= i < |files| ==> files[i] == files[1..][i - 1];
      if k.Some? && rest.Some? then Some([Keyed(k.value, files[0])] + rest.value) else None
  }

  predicate SortedByKey(s: seq<Keyed>) {
    forall i, j :: 0 <= i < j < |s| ==> s[i].key <= s[j].key
  }

  lemma InsertBelow(x: Keyed, init: seq<Keyed>, last: Keyed, front: seq<Keyed>)
    requires SortedByKey(init + [last]) && x.key < last.key
    requires SortedByKey(front) && multiset(front) == multiset(init) + multiset{x}
    ensures SortedByKey(front + [last])
    ensures multiset(front + [last]) == multiset(init + [last]) + multiset{x}
  {
    forall i | 0 <= i < |front|
      ensures front[i].key <= last.key
    {
      assert front[i] in multiset(front);
      if front[i] != x {
        assert front[i] in multiset(init);
        var k :| 0 <= k < |init| && init[k] == front[i];
        assert (init + [last])[k] == init[k] && (init + [last])[|init|] == last;
      }
    }
  }

  /** Inserts `x` after every element whose key is not larger (keeps the sort stable). */
  function Insert(x: Keyed, s: seq<Keyed>): (r: seq<Keyed>)
    requires SortedByKey(s)
    ensures SortedByKey(r)
    ensures multiset(r) == multiset(s) + multiset{x}
    decreases |s|
  {
    if s == [] then [x]
    else if x.key < s[|s| - 1].key then
      var init, last := s[..|s| - 1], s[|s| - 1];
      var front := Insert(x, init);
      assert s == init + [last];
      InsertBelow(x, init, last, front);
      front + [last]
    else s + [x]
  }

  /** Python's `sorted(..., key=...)`: a stable sort by key. */
  function SortByKey(s: seq<Keyed>): (r: seq<Keyed>)
    ensures SortedByKey(r)
    ensures multiset(r) == multiset(s)
  {
    if s == [] then []
    else
      assert s == s[..|s| - 1] + [s[|s| - 1]];
      Insert(s[|s| - 1], SortByKey(s[..|s| - 1]))
  }

  predicate IsInteraction(f: InteractionFile) {
    f.promptIds.Some? && f.responseIds.Some?
  }

  /** The prompt ids fed to the engine: one per interaction file, in order. */
  function FedPrompts(files: seq<Keyed>): (fed: seq<seq<int>>)
    ensures |fed| <= |files|
  {
    if files == [] then []
    else
      var f := files[0].file;
      (if IsInteraction(f) then [f.promptIds.value] else []) + FedPrompts(files[1..])
  }

  datatype ReplayError = SessionDirNotFound | BadSortKey

  /** What the replay feeds and reports. */
  datatype Replay = Replay(fed: seq<seq<int>>, reported: nat)

  /**
   * `load_session_into_cache`: a missing directory raises before anything is
   * fed; a file whose key is not an integer makes the sort raise; otherwise
   * the files are taken in key order, those without both `prompt_ids` and
   * `response_ids` are skipped, only the prompt ids of the others are fed to
   * the engine, and the count reported is that of all files, skipped ones
   * included.
   */
  method LoadSessionIntoCache(dirExists: bool, listing: seq<InteractionFile>)
    returns (r: Result<Replay, ReplayError>)
    ensures !dirExists ==> r == Err(SessionDirNotFound)
    ensures dirExists && KeyAll(Globbed(listing)).None? ==> r == Err(BadSortKey)
    ensures dirExists && KeyAll(Globbed(listing)).Some? ==>
      r == Ok(Replay(FedPrompts(SortByKey(KeyAll(Globbed(listing)).value)), |Globbed(listing)|))
  {
    if !dirExists {
      return Err(SessionDirNotFound);
    }
    var globbed := Globbed(listing);
    var keyed := KeyAll(globbed);
    if keyed.None? {
      return Err(BadSortKey);
    }
    var files := SortByKey(keyed.value);
    assert |files| == |globbed| by {
      assert |multiset(files)| == |multiset(keyed.value)|;
    }
    var fed := FeedFiles(files);
    return Ok(Replay(fed, |files|));
  }

  /** The loop of `load_session_into_cache` over the sorted files. */
  method FeedFiles(files: seq<Keyed>) returns (fed: seq<seq<int>>)
    ensures fed == FedPrompts(files)
  {
    fed := [];
    var k := 0;
    while k < |files|
      invariant 0 <= k <= |files|
      invariant fed + FedPrompts(files[k..]) == FedPrompts(files)
    {
      var f := files[k].file;
      assert files[k..][0] == files[k] && files[k..][1..] == files[k + 1..];
      if !IsInteraction(f) {
        k := k + 1;
        continue;
      }
      fed := fed + [f.promptIds.value];
      k := k + 1;
    }
    assert files[k..] == [];
  }

  /**
   * A directory holding only interaction files feeds one prompt per file, in
   * the order of the files given (the key order, when they come from
   * `SortByKey`).
   */
  lemma {:induction false} FedPromptsAllInteractions(files: seq<Keyed>)
    requires forall i :: 0 <= i < |files| ==> IsInteraction(files[i].file)
    ensures |FedPrompts(files)| == |files|
    ensures forall i :: 0 <= i < |files| ==> Some(FedPrompts(files)[i]) == files[i].file.promptIds
  {
    if files != [] {
      FedPromptsAllInteractions(files[1..]);
    }
  }
}
