/**
 * Proof generation for a single text contribution to a Hindi data pool
 * (`my_proof/proof.py`).
 *
 * `Proof.Generate` picks the first non-JSON entry of the input directory,
 * checks that its text is Hindi (authenticity), of acceptable length
 * (quality) and unique (a stub that always passes), and writes the verdict
 * into the `ProofResponse` record the `Proof` object owns.
 *
 * The environment is passed in: the directory listing as a sequence of names
 * in the order the operating system returns them, the file contents as a
 * function of the name, the language detector's answer for this run, and the
 * content digest as a function of the text.
 */
module MyProof {
  import opened Wrappers

  // ---------------------------------------------------------------------
  // Constants
  // ---------------------------------------------------------------------

  const MinTextLength: nat := 50
  const MaxTextLength: nat := 5000
  const TargetLanguage: string := "hi"
  const DetectionFailed: string := "detection_failed"
  const JsonSuffix: string := ".json"
  const NoFileMessage: string := "No text file found for validation."

  /** The key of the pool identifier in the metadata dictionary. */
  const DlpIdKey: string := "dlp_id"

  // ---------------------------------------------------------------------
  // Data model
  // ---------------------------------------------------------------------

  /** A score: the pipeline only ever assigns the float literals 0.0 and 1.0. */
  datatype Score = Zero | One

  /** The keys `generate` writes into the attribute dictionary. */
  datatype Attribute =
    | Error | LanguageDetected | IsHindi | ContentLength | IsGoodLength
    | ContentHash | MinLengthRequired | MaxLengthAllowed
  {
    /** The dictionary key as the record spells it. */
    function Name(): string {
      match this
      case Error => "error"
      case LanguageDetected => "language_detected"
      case IsHindi => "is_hindi"
      case ContentLength => "content_length"
      case IsGoodLength => "is_good_length"
      case ContentHash => "content_hash"
      case MinLengthRequired => "min_length_required"
      case MaxLengthAllowed => "max_length_allowed"
    }
  }

  /** Distinct keys have distinct names, so a map keyed by `Attribute` is
      the record's dictionary keyed by name. */
  lemma AttributeNamesDistinct(a: Attribute, b: Attribute)
    ensures a.Name() == b.Name() <==> a == b
  {
  }

  /** The seven keys a scored record's attributes carry. */
  const ScoredKeys: set<Attribute> :=
    {LanguageDetected, IsHindi, ContentLength, IsGoodLength, ContentHash,
     MinLengthRequired, MaxLengthAllowed}

  /** A value stored in the attribute and metadata dictionaries. */
  datatype Value = Str(s: string) | Bool(b: bool) | Int(i: int)

  /** The configuration dictionary: the pool's `dlp_id` and `input_dir`. */
  datatype Config = Config(dlpId: Value, inputDir: string)

  /** The observable state of a `ProofResponse`, as a value. */
  datatype Record = Record(
    dlpId: Value,
    valid: bool,
    score: Score,
    ownership: Score,
    authenticity: Score,
    quality: Score,
    uniqueness: Score,
    attributes: map<Attribute, Value>,
    metadata: map<string, Value>)

  /** The overall score agrees with the verdict. */
  predicate Consistent(r: Record) {
    r.score == One <==> r.valid
  }

  /** A freshly built `ProofResponse(dlp_id=...)`; the defaults are assumed. */
  function Initial(dlpId: Value): (r: Record) {
    Record(dlpId, false, Zero, Zero, Zero, Zero, Zero, map[], map[])
  }

  // ---------------------------------------------------------------------
  // File selection
  // ---------------------------------------------------------------------

  /** Python's `str.endswith`. */
  predicate EndsWith(s: string, suffix: string) {
    |suffix| <= |s| && s[|s| - |suffix|..] == suffix
  }

  /** A metadata sidecar file, skipped by the selection. */
  predicate IsJson(name: string) {
    EndsWith(name, JsonSuffix)
  }

  /** The position of the first name that is not a JSON file, or `|names|`
      when there is none. */
  function FirstNonJsonIndex(names: seq<string>): (k: nat)
    ensures k <= |names|
    ensures forall j :: 0 <= j < k ==> IsJson(names[j])
    ensures k < |names| ==> !IsJson(names[k])
  {
    if names == [] then 0
    else if !IsJson(names[0]) then 0
    else 1 + FirstNonJsonIndex(names[1..])
  }

  /** The file the pipeline validates: the first non-JSON name, if any. */
  function FirstNonJson(names: seq<string>): (r: Option<string>) {
    var k := FirstNonJsonIndex(names);
    if k < |names| then Some(names[k]) else None
  }

  /** The chosen name is the first one in listing order that does not end in
      `.json`, and every name before it does; there is none exactly when
      every name ends in `.json`, including when the listing is empty. */
  lemma FirstNonJsonCharacterized(names: seq<string>)
    ensures FirstNonJson(names).None? <==> forall j :: 0 <= j < |names| ==> IsJson(names[j])
    ensures FirstNonJson(names).Some? ==>
              exists k :: 0 <= k < |names| && names[k] == FirstNonJson(names).value
                          && !IsJson(names[k])
                          && forall j :: 0 <= j < k ==> IsJson(names[j])
  {
  }

  /** The selection loop: walk the listing in order and stop at the first
      name that does not end in `.json`. */
  method SelectFile(listing: seq<string>) returns (chosen: Option<string>)
    ensures chosen == FirstNonJson(listing)
  {
    chosen := None;
    var i := 0;
    while i < |listing|
      invariant 0 <= i <= |listing|
      invariant chosen == None
      invariant forall j :: 0 <= j < i ==> IsJson(listing[j])
    {
      if !IsJson(listing[i]) {
        chosen := Some(listing[i]);
        break;
      }
      i := i + 1;
    }
  }

  /** Once a name has been chosen, whatever follows it in the listing is
      never looked at. */
  lemma {:induction false} FirstNonJsonIgnoresRest(names: seq<string>, rest: seq<string>)
    requires FirstNonJson(names).Some?
    ensures FirstNonJson(names + rest) == FirstNonJson(names)
    ensures FirstNonJsonIndex(names + rest) == FirstNonJsonIndex(names)
  {
    if !IsJson(names[0]) {
      assert (names + rest)[0] == names[0];
    } else {
      assert (names + rest)[1..] == names[1..] + rest;
      FirstNonJsonIgnoresRest(names[1..], rest);
    }
  }

  // ---------------------------------------------------------------------
  // The checks and the verdict
  // ---------------------------------------------------------------------

  /** The quality check: the length lies in the inclusive range. */
  predicate QualityCheck(contentLength: int) {
    MinTextLength <= contentLength <= MaxTextLength
  }

  /** The overall verdict: all three checks pass. */
  predicate Verdict(isHindi: bool, isGoodLength: bool, isUnique: bool) {
    isHindi && isGoodLength && isUnique
  }

  function ScoreOf(flag: bool): (s: Score) {
    if flag then One else Zero
  }

  /** The record after a file has been found and checked, given the text,
      the detector's answer (`None` when it raised) and the text's digest.
      Every field except `dlpId` is overwritten. */
  function ScoredRecord(prior: Record, configDlpId: Value, text: string,
                        detected: Option<string>, contentHash: string): (r: Record)
    ensures r.dlpId == prior.dlpId
    ensures r.valid <==> detected == Some(TargetLanguage)
                         && MinTextLength <= |text| <= MaxTextLength
    ensures Consistent(r)
    ensures r.ownership == One
    ensures r.authenticity == One <==> detected == Some(TargetLanguage)
    ensures r.quality == One <==> MinTextLength <= |text| <= MaxTextLength
    ensures r.uniqueness == One
    ensures r.metadata == map[DlpIdKey := configDlpId]
  {
    var isHindi := detected == Some(TargetLanguage);
    var languageDetected := match detected
                            case Some(code) => code
                            case None => DetectionFailed;
    var isGoodLength := QualityCheck(|text|);
    var isUnique := true;
    var valid := Verdict(isHindi, isGoodLength, isUnique);
    Record(
      prior.dlpId,
      valid,
      ScoreOf(valid),
      One,
      ScoreOf(isHindi),
      ScoreOf(isGoodLength),
      ScoreOf(isUnique),
      map[LanguageDetected := Str(languageDetected),
          IsHindi := Bool(isHindi),
          ContentLength := Int(|text|),
          IsGoodLength := Bool(isGoodLength),
          ContentHash := Str(contentHash),
          MinLengthRequired := Int(MinTextLength),
          MaxLengthAllowed := Int(MaxTextLength)],
      map[DlpIdKey := configDlpId])
  }

  /** A scored record's attributes hold exactly the seven diagnostic keys:
      the detected language (or the failure marker), both check flags, the
      length that was checked, the digest and the two bounds. */
  lemma ScoredRecordAttributes(prior: Record, configDlpId: Value, text: string,
                               detected: Option<string>, contentHash: string)
    ensures var r := ScoredRecord(prior, configDlpId, text, detected, contentHash);
            r.attributes.Keys == ScoredKeys
            && r.attributes[LanguageDetected] == Str(detected.GetOr(DetectionFailed))
            && r.attributes[IsHindi] == Bool(r.authenticity == One)
            && r.attributes[ContentLength] == Int(|text|)
            && r.attributes[IsGoodLength] == Bool(r.quality == One)
            && r.attributes[ContentHash] == Str(contentHash)
            && r.attributes[MinLengthRequired] == Int(50)
            && r.attributes[MaxLengthAllowed] == Int(5000)
  {
  }

  /** The record after no file was found: it is marked invalid and gains the
      error attribute; nothing else changes. */
  function RejectedRecord(prior: Record): (r: Record)
    ensures !r.valid
    ensures r.attributes.Keys == prior.attributes.Keys + {Error}
    ensures r.attributes[Error] == Str(NoFileMessage)
    ensures forall key :: key in prior.attributes && key != Error ==>
              r.attributes[key] == prior.attributes[key]
    ensures r.dlpId == prior.dlpId && r.metadata == prior.metadata
    ensures r.score == prior.score && r.ownership == prior.ownership
    ensures r.authenticity == prior.authenticity && r.quality == prior.quality
    ensures r.uniqueness == prior.uniqueness
  {
    prior.(valid := false, attributes := prior.attributes[Error := Str(NoFileMessage)])
  }

  /** What one run of `generate` does to the record. */
  function GenerateSpec(prior: Record, configDlpId: Value, listing: seq<string>,
                        read: string -> string, detected: Option<string>,
                        digest: string -> string): (r: Record)
  {
    match FirstNonJson(listing)
    case None => RejectedRecord(prior)
    case Some(name) => ScoredRecord(prior, configDlpId, read(name), detected, digest(read(name)))
  }

  /** With no qualifying file, a freshly built record ends with `valid` false,
      a zero score and only the error attribute. */
  lemma NoInputOnFreshRecord(dlpId: Value, listing: seq<string>, read: string -> string,
                             detected: Option<string>, digest: string -> string)
    requires forall j :: 0 <= j < |listing| ==> IsJson(listing[j])
    ensures GenerateSpec(Initial(dlpId), dlpId, listing, read, detected, digest)
            == Initial(dlpId).(attributes := map[Error := Str(NoFileMessage)])
  {
  }

  /** A file found at position `k` behind only JSON files decides the record:
      the text read from it is the one scored. */
  lemma ScoredFileIsFirstNonJson(prior: Record, configDlpId: Value, listing: seq<string>,
                                 read: string -> string, detected: Option<string>,
                                 digest: string -> string, k: nat)
    requires k < |listing| && !IsJson(listing[k])
    requires forall j :: 0 <= j < k ==> IsJson(listing[j])
    ensures GenerateSpec(prior, configDlpId, listing, read, detected, digest)
            == ScoredRecord(prior, configDlpId, read(listing[k]), detected,
                            digest(read(listing[k])))
  {
  }

  /** The score agrees with the verdict after a run exactly when a file was
      scored or the earlier score was already zero: a run on a record that
      was scored valid before, with no file this time, leaves score 1 next
      to `valid == false`. */
  lemma ConsistentAfterGenerate(prior: Record, configDlpId: Value, listing: seq<string>,
                                read: string -> string, detected: Option<string>,
                                digest: string -> string)
    ensures Consistent(GenerateSpec(prior, configDlpId, listing, read, detected, digest))
            <==> FirstNonJson(listing).Some? || prior.score == Zero
  {
  }

  /** Running the pipeline a second time on its own result changes nothing. */
  lemma GenerateIdempotent(prior: Record, configDlpId: Value, listing: seq<string>,
                           read: string -> string, detected: Option<string>,
                           digest: string -> string)
    ensures var once := GenerateSpec(prior, configDlpId, listing, read, detected, digest);
            GenerateSpec(once, configDlpId, listing, read, detected, digest) == once
  {
  }

  // ---------------------------------------------------------------------
  // The objects
  // ---------------------------------------------------------------------

  /** The proof record whose fields `generate` assigns one at a time. */
  class ProofResponse {
    var dlpId: Value
    var valid: bool
    var score: Score
    var ownership: Score
    var authenticity: Score
    var quality: Score
    var uniqueness: Score
    var attributes: map<Attribute, Value>
    var metadata: map<string, Value>

    function Snapshot(): (r: Record)
      reads this
    {
      Record(dlpId, valid, score, ownership, authenticity, quality, uniqueness,
             attributes, metadata)
    }

    /** `ProofResponse(dlp_id=...)`; the other fields take assumed defaults. */
    constructor (dlpId: Value)
      ensures Snapshot() == Initial(dlpId)
    {
      this.dlpId := dlpId;
      valid := false;
      score, ownership, authenticity, quality, uniqueness := Zero, Zero, Zero, Zero, Zero;
      attributes := map[];
      metadata := map[];
    }
  }

  class Proof {
    const config: Config
    const proofResponse: ProofResponse

    /** `Proof(config)`: keeps the configuration and creates the record for
        the configured pool. */
    constructor (config: Config)
      ensures this.config == config
      ensures fresh(proofResponse)
      ensures proofResponse.Snapshot() == Initial(config.dlpId)
    {
      this.config := config;
      proofResponse := new ProofResponse(config.dlpId);
    }

    /** Runs the pipeline on the given listing and returns the record.
        `detected` is the detector's answer for the chosen file's text
        (`None` when it raised); it is not consulted when no file is found. */
    method Generate(listing: seq<string>, read: string -> string,
                    detected: Option<string>, digest: string -> string)
      returns (r: ProofResponse)
      modifies proofResponse
      ensures r == proofResponse
      ensures r.Snapshot() == GenerateSpec(old(proofResponse.Snapshot()), config.dlpId,
                                           listing, read, detected, digest)
    {
      r := proofResponse;
      var fileToProcess := SelectFile(listing);

      if fileToProcess.None? {
        proofResponse.valid := false;
        proofResponse.attributes := proofResponse.attributes[Error := Str(NoFileMessage)];
        return;
      }

      var textContent := read(fileToProcess.value);

      // 1. authenticity
      var isHindi := false;
      var languageDetected := "unknown";
      match detected {
        case Some(code) =>
          languageDetected := code;
          if languageDetected == TargetLanguage {
            isHindi := true;
          }
        case None =>
          isHindi := false;
          languageDetected := DetectionFailed;
      }

      // 2. quality
      var contentLength := |textContent|;
      var isGoodLength := QualityCheck(contentLength);

      // 3. uniqueness
      var contentHash := digest(textContent);
      var isUnique := true;

      proofResponse.valid := Verdict(isHindi, isGoodLength, isUnique);

      proofResponse.score := if proofResponse.valid then One else Zero;
      proofResponse.ownership := One;
      proofResponse.authenticity := if isHindi then One else Zero;
      proofResponse.quality := if isGoodLength then One else Zero;
      proofResponse.uniqueness := if isUnique then One else Zero;

      proofResponse.attributes := map[
        LanguageDetected := Str(languageDetected),
        IsHindi := Bool(isHindi),
        ContentLength := Int(contentLength),
        IsGoodLength := Bool(isGoodLength),
        ContentHash := Str(contentHash),
        MinLengthRequired := Int(MinTextLength),
        MaxLengthAllowed := Int(MaxTextLength)
      ];

      proofResponse.metadata := map[DlpIdKey := config.dlpId];
    }
  }

  /** A client of `Proof`: build a proof object for `config`, run the pipeline
      twice on it, and once more on a second object built the same way. All
      three records agree, the score matches the verdict, and the record
      belongs to the configured pool. */
  method GenerateIsDeterministic(config: Config, listing: seq<string>, read: string -> string,
                                 detected: Option<string>, digest: string -> string)
    returns (once: Record, twice: Record, other: Record)
    ensures once == twice == other
    ensures once == GenerateSpec(Initial(config.dlpId), config.dlpId, listing, read,
                                 detected, digest)
    ensures Consistent(once)
    ensures once.dlpId == config.dlpId
    ensures FirstNonJson(listing).Some? ==> once.metadata == map[DlpIdKey := config.dlpId]
  {
    var p := new Proof(config);
    var r := p.Generate(listing, read, detected, digest);
    once := r.Snapshot();
    r := p.Generate(listing, read, detected, digest);
    twice := r.Snapshot();
    GenerateIdempotent(Initial(config.dlpId), config.dlpId, listing, read, detected, digest);
    ConsistentAfterGenerate(Initial(config.dlpId), config.dlpId, listing, read, detected, digest);

    var q := new Proof(config);
    var s := q.Generate(listing, read, detected, digest);
    other := s.Snapshot();
  }
}
