/**
 * The content categories and the two classifiers: the file-level one the
 * downloader applies to every file of a version (extension first, then
 * the item's declared type), with the `--download_type` filter, and the
 * coarse one the aggregator applies to an item's type alone.
 */
module Categories {
  import opened Wrappers
  import opened PyStr

  /** The five categories; each is also a sub-folder name. */
  datatype Category = Checkpoints | Embeddings | Lora | TrainingData | Other

  /** The order of the keys of the aggregator's `categorized_items` dictionary. */
  const CategoryOrder: seq<Category> := [Checkpoints, Embeddings, Lora, TrainingData, Other]

  /** The category's name: its folder name, dictionary key and ledger label. */
  function CategoryName(c: Category): string {
    match c
    case Checkpoints => "Checkpoints"
    case Embeddings => "Embeddings"
    case Lora => "Lora"
    case TrainingData => "Training_Data"
    case Other => "Other"
  }

  lemma CategoryOrderComplete(c: Category)
    ensures c in CategoryOrder
  {
  }

  lemma CategoryNameInjective(c: Category, d: Category)
    ensures CategoryName(c) == CategoryName(d) <==> c == d
  {
  }

  /** The `--download_type` choice: every category, or one of them. */
  datatype DownloadType = All | Only(category: Category)

  function DownloadTypeName(d: DownloadType): string {
    match d
    case All => "All"
    case Only(c) => CategoryName(c)
  }

  /** The check against VALID_DOWNLOAD_TYPES: one of the six names, compared exactly. */
  function ParseDownloadType(s: string): (r: Option<DownloadType>)
    ensures r.Some? ==> DownloadTypeName(r.value) == s
  {
    if s == "All" then Some(All)
    else if s == "Checkpoints" then Some(Only(Checkpoints))
    else if s == "Embeddings" then Some(Only(Embeddings))
    else if s == "Lora" then Some(Only(Lora))
    else if s == "Training_Data" then Some(Only(TrainingData))
    else if s == "Other" then Some(Only(Other))
    else None
  }

  /** Every download type is accepted under its own name, and only under it. */
  lemma ParseDownloadTypeName(d: DownloadType, s: string)
    ensures ParseDownloadType(s) == Some(d) <==> s == DownloadTypeName(d)
  {
  }

  /**
   * The filter of the file loop: a file is skipped when the download
   * type is neither "All" nor the name of the file's category.
   */
  predicate IsSkipped(d: DownloadType, c: Category) {
    d.Only? && d.category != c
  }

  /** The filter agrees with the source's string test `download_type != 'All' and download_type != subfolder`. */
  lemma IsSkippedIsNameTest(d: DownloadType, c: Category)
    ensures IsSkipped(d, c) <==> DownloadTypeName(d) != "All" && DownloadTypeName(d) != CategoryName(c)
  {
  }

  /** Names ending in two different suffixes share the suffixes' last character. */
  lemma SuffixesShareLastChar(s: string, a: string, b: string)
    requires |a| > 0 && |b| > 0 && EndsWith(s, a) && EndsWith(s, b)
    ensures a[|a| - 1] == b[|b| - 1]
  {
    assert s[|s| - 1] == a[|a| - 1] by { assert s[|s| - |a|..][|a| - 1] == s[|s| - 1]; }
    assert s[|s| - 1] == b[|b| - 1] by { assert s[|s| - |b|..][|b| - 1] == s[|s| - 1]; }
  }

  /** The three extensions the classifier tests; a name ends in at most one of them. */
  lemma ExtensionsExclusive(f: string)
    ensures EndsWith(f, ".zip") ==> !EndsWith(f, ".safetensors") && !EndsWith(f, ".pt")
    ensures EndsWith(f, ".safetensors") ==> !EndsWith(f, ".pt")
  {
    if EndsWith(f, ".zip") && EndsWith(f, ".safetensors") { SuffixesShareLastChar(f, ".zip", ".safetensors"); }
    if EndsWith(f, ".zip") && EndsWith(f, ".pt") { SuffixesShareLastChar(f, ".zip", ".pt"); }
    if EndsWith(f, ".safetensors") && EndsWith(f, ".pt") { SuffixesShareLastChar(f, ".safetensors", ".pt"); }
  }

  /**
   * The sub-folder the downloader picks for one file, from the file's
   * name and the item's `type` (compared case-sensitively).  Each
   * category is characterised by exactly the names and types that reach it.
   */
  function FileCategory(fileName: string, itemType: Option<string>): (c: Category)
    ensures c == Checkpoints <==> EndsWith(fileName, ".safetensors") && itemType == Some("Checkpoint")
    ensures c == Embeddings <==>
      (EndsWith(fileName, ".safetensors") || EndsWith(fileName, ".pt")) && itemType == Some("TextualInversion")
    ensures c == TrainingData <==> EndsWith(fileName, ".zip") && itemType == Some("Training_Data")
    ensures c == Lora <==>
      || (EndsWith(fileName, ".zip") && itemType == Some("LORA"))
      || (EndsWith(fileName, ".safetensors") &&
          itemType !in {Some("Checkpoint"), Some("TextualInversion"), Some("VAE"), Some("LoCon")})
  {
    ExtensionsExclusive(fileName);
    if EndsWith(fileName, ".zip") then
      if itemType == Some("LORA") then Lora
      else if itemType == Some("Training_Data") then TrainingData
      else Other
    else if EndsWith(fileName, ".safetensors") then
      match itemType
      case Some(t) =>
        if t == "Checkpoint" then Checkpoints
        else if t == "TextualInversion" then Embeddings
        else if t in ["VAE", "LoCon"] then Other
        else Lora
      case None => Lora
    else if EndsWith(fileName, ".pt") then
      if itemType == Some("TextualInversion") then Embeddings else Other
    else Other
  }

  /** The examples of the decision table: the `.safetensors` default and the other-extension case. */
  lemma FileCategoryExamples(t: Option<string>)
    ensures FileCategory("weights.safetensors", None) == Lora
    ensures FileCategory("weights.safetensors", Some("VAE")) == Other
    ensures FileCategory("weights.safetensors", Some("LoCon")) == Other
    ensures FileCategory("embedding.pt", Some("TextualInversion")) == Embeddings
    ensures FileCategory("setup.exe", t) == Other
  {
    assert EndsWith("weights.safetensors", ".safetensors");
    assert !EndsWith("weights.safetensors", ".zip") by { assert "weights.safetensors"[15..] != ".zip"; }
    assert EndsWith("embedding.pt", ".pt");
    assert !EndsWith("embedding.pt", ".zip") && !EndsWith("embedding.pt", ".safetensors") by {
      assert "embedding.pt"[8..] != ".zip";
    }
    assert !EndsWith("setup.exe", ".zip") by { assert "setup.exe"[5..] != ".zip"; }
    assert !EndsWith("setup.exe", ".pt") by { assert "setup.exe"[6..] != ".pt"; }
  }

  /** The coarse classifier: the item's type, upper-cased; a missing type is "". */
  function CategorizeItem(itemType: Option<string>): (c: Category)
    ensures c != Other ==> itemType.Some?
    ensures c == Checkpoints <==> itemType.Some? && Upper(itemType.value) == "CHECKPOINT"
    ensures c == Embeddings <==> itemType.Some? && Upper(itemType.value) == "TEXTUALINVERSION"
    ensures c == Lora <==> itemType.Some? && Upper(itemType.value) == "LORA"
    ensures c == TrainingData <==> itemType.Some? && Upper(itemType.value) == "TRAINING_DATA"
    ensures c == Other <==> Upper(itemType.GetOr("")) !in {"CHECKPOINT", "TEXTUALINVERSION", "LORA", "TRAINING_DATA"}
  {
    var t := Upper(itemType.GetOr(""));
    if t == "CHECKPOINT" then Checkpoints
    else if t == "TEXTUALINVERSION" then Embeddings
    else if t == "LORA" then Lora
    else if t == "TRAINING_DATA" then TrainingData
    else Other
  }

  /** Types that differ only in letter case are classified alike. */
  lemma CategorizeItemIgnoresCase(a: string, b: string)
    requires Upper(a) == Upper(b)
    ensures CategorizeItem(Some(a)) == CategorizeItem(Some(b))
  {
  }

  lemma CategorizeItemExamples()
    ensures CategorizeItem(Some("lora")) == Lora && CategorizeItem(Some("LORA")) == Lora
    ensures CategorizeItem(Some("Checkpoint")) == Checkpoints
    ensures CategorizeItem(Some("TextualInversion")) == Embeddings
    ensures CategorizeItem(None) == Other && CategorizeItem(Some("VAE")) == Other
  {
  }

  /**
   * Where the file-level classifier picks Checkpoints, Embeddings or
   * Training_Data, the coarse one picks the same category for the item.
   */
  lemma ClassifiersAgreeOnTypedCategories(fileName: string, itemType: Option<string>)
    requires FileCategory(fileName, itemType) in {Checkpoints, Embeddings, TrainingData}
    ensures CategorizeItem(itemType) == FileCategory(fileName, itemType)
  {
    var c := FileCategory(fileName, itemType);
    if c == Checkpoints {
      assert Upper("Checkpoint") == "CHECKPOINT";
    } else if c == Embeddings {
      assert Upper("TextualInversion") == "TEXTUALINVERSION";
    } else {
      assert Upper("Training_Data") == "TRAINING_DATA";
    }
  }

  /**
   * They do differ elsewhere: the `.safetensors` default gives Lora where
   * the coarse classifier gives Other, and only the coarse one ignores case.
   */
  lemma ClassifiersDiffer()
    ensures FileCategory("w.safetensors", None) == Lora && CategorizeItem(None) == Other
    ensures FileCategory("w.zip", Some("Lora")) == Other && CategorizeItem(Some("Lora")) == Lora
  {
  }
}
