/** The model catalogue: a fixed, ordered mapping from short model names to
    provider model identifiers, a default identifier, and a family
    classification by name prefix. */
module Models {
  import opened Wrappers
  import opened Seqs

  datatype ModelConfig = ModelConfig(name: string, id: string)

  /** `MODEL_CONFIGS`, in declaration order (a Python dict keeps insertion order). */
  const ModelConfigs: seq<ModelConfig> := [
    ModelConfig("mistral-7b", "mistralai/mistral-7b-instruct:free"),
    ModelConfig("mistral-small-24b", "mistralai/mistral-small-24b-instruct-2501:free"),
    ModelConfig("llama-3.3-8b", "meta-llama/llama-3.3-8b-instruct:free"),
    ModelConfig("llama-3.2-3b", "meta-llama/llama-3.2-3b-instruct:free"),
    ModelConfig("gemma-3-4b", "google/gemma-3-4b-it:free"),
    ModelConfig("gemma-3-12b", "google/gemma-3-12b-it:free")
  ]

  /** The catalogue's names, the keys of the dictionary. */
  predicate IsCatalogued(name: string) {
    exists i :: 0 <= i < |ModelConfigs| && ModelConfigs[i].name == name
  }

  /** Dictionary lookup: the id stored under `name`, if any. */
  function Lookup(configs: seq<ModelConfig>, name: string): (r: Option<string>)
    ensures r.None? <==> forall i :: 0 <= i < |configs| ==> configs[i].name != name
    ensures r.Some? ==> exists i :: 0 <= i < |configs| && configs[i] == ModelConfig(name, r.value)
  {
    if configs == [] then None
    else if configs[0].name == name then Some(configs[0].id)
    else
      var r := Lookup(configs[1..], name);
      assert forall i :: 1 <= i < |configs| ==> configs[i] == configs[1..][i - 1];
      r
  }

  /** `DEFAULT_MODEL_ID`, the id stored under "mistral-7b". */
  const DefaultModelId: string := Lookup(ModelConfigs, "mistral-7b").GetOr("")

  /** `get_model_id`: the catalogued id for a known name, the default id otherwise. */
  function GetModelId(modelName: string): (r: string)
    ensures forall i :: 0 <= i < |ModelConfigs| && ModelConfigs[i].name == modelName ==> r == ModelConfigs[i].id
    ensures !IsCatalogued(modelName) ==> r == DefaultModelId
    ensures exists i :: 0 <= i < |ModelConfigs| && ModelConfigs[i].id == r
  {
    CatalogueNamesDistinct();
    Lookup(ModelConfigs, modelName).GetOr(DefaultModelId)
  }

  /** No name is catalogued twice, so a lookup is unambiguous. */
  lemma CatalogueNamesDistinct()
    ensures forall i, j :: 0 <= i < j < |ModelConfigs| ==> ModelConfigs[i].name != ModelConfigs[j].name
  {
  }

  /** The default id is the one catalogued under "mistral-7b". */
  lemma DefaultIsMistral7b()
    ensures DefaultModelId == "mistralai/mistral-7b-instruct:free"
    ensures GetModelId("mistral-7b") == DefaultModelId
  {
  }

  /** `list_available_models`: the catalogue's names in declaration order. */
  function ListAvailableModels(): (r: seq<string>)
    ensures |r| == |ModelConfigs|
    ensures forall i :: 0 <= i < |r| ==> r[i] == ModelConfigs[i].name
    ensures forall name :: name in r <==> IsCatalogued(name)
  {
    seq(|ModelConfigs|, i requires 0 <= i < |ModelConfigs| => ModelConfigs[i].name)
  }

  /** `get_model_family`: the first of "llama", "mistral", "gemma" that prefixes the name. */
  function GetModelFamily(modelName: string): (r: string)
    ensures r in {"LLaMa", "Mistral", "Gemma", "Unknown"}
    ensures r == "LLaMa" <==> StartsWith(modelName, "llama")
    ensures r == "Mistral" <==> StartsWith(modelName, "mistral")
    ensures r == "Gemma" <==> StartsWith(modelName, "gemma")
  {
    PrefixesExclusive(modelName);
    if StartsWith(modelName, "llama") then "LLaMa"
    else if StartsWith(modelName, "mistral") then "Mistral"
    else if StartsWith(modelName, "gemma") then "Gemma"
    else "Unknown"
  }

  /** No name starts with two of the family prefixes: their first letters differ. */
  lemma PrefixesExclusive(name: string)
    ensures !(StartsWith(name, "llama") && StartsWith(name, "mistral"))
    ensures !(StartsWith(name, "llama") && StartsWith(name, "gemma"))
    ensures !(StartsWith(name, "mistral") && StartsWith(name, "gemma"))
  {
    if StartsWith(name, "llama") { assert name[0] == "llama"[0]; }
    if StartsWith(name, "mistral") { assert name[0] == "mistral"[0]; }
  }

  /** Every catalogued model belongs to a known family. */
  lemma CatalogueFamiliesKnown()
    ensures forall i :: 0 <= i < |ModelConfigs| ==> GetModelFamily(ModelConfigs[i].name) != "Unknown"
  {
    forall i | 0 <= i < |ModelConfigs|
      ensures GetModelFamily(ModelConfigs[i].name) != "Unknown"
    {
      var c := ModelConfigs[i];
      assert c.name[0] != 'm' ==> !StartsWith(c.name, "mistral");
    }
  }
}
