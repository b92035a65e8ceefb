# Hindi text proof generator: a Dafny model

This project models the proof generator of a data-contribution pool that accepts
Hindi text. `Proof(config)` creates a `ProofResponse` record for the configured
pool (`dlp_id`). `Proof.generate()` then does three things:

- It picks the input file: the first directory entry whose name does not end in `.json`.
- It runs three checks on that file's text. Authenticity: the detected language is `"hi"`. Quality: the length is between 50 and 5000 characters, both ends included. Uniqueness: a stub that always passes, next to a content digest.
- It writes the verdict, the scores, seven diagnostic attributes and the metadata into the record, one field at a time.

With no qualifying file, it only marks the record invalid and adds an `error` attribute.

The model is in two files:

- `wrappers.dfy` defines `Option`.
- `proof.dfy` (module `MyProof`) has the rest:
  - the constants;
  - the value types `Score`, `Attribute`, `Value`, `Config` and `Record`;
  - the selection specification `FirstNonJsonIndex`/`FirstNonJson` and the selection loop `SelectFile`;
  - the specification functions `ScoredRecord`, `RejectedRecord` and `GenerateSpec`;
  - the two classes `ProofResponse` (the mutable record) and `Proof` (owner of the configuration and the record, with `Generate`).

`Generate` is imperative, like the source. It assigns the record's fields one by one. Its postcondition ties the record's new state to `GenerateSpec` of the record's old state. The lemmas and the contracts of the specification functions state what the pipeline promises.

The environment is passed in as parameters:

- The directory listing is a `seq<string>` of names, in the order the operating system returns them.
- The file contents are a function `read` from a name to its text.
- The detector's answer for this run is an `Option<string>`. `None` means the detector raised its detection exception.
- The content digest is a function `digest` of the text. SHA-256 itself is not modelled.

Scores are the datatype `Score = Zero | One`, because the source only ever assigns the literals `0.0` and `1.0`. Python strings are sequences of code points and may hold lone surrogates, which a Dafny `char` cannot. The text here comes from a strict UTF-8 decode, which never produces surrogates, so `|text|` counts what `len` counts. The file is read in text mode, so line endings are translated before the length is taken and before the text is hashed; `read` stands for that translated text.

Behaviours of the code worth knowing, which the model follows:

- The error message is `"No text file found for validation."`.
- On the no-input path, `score`, the sub-scores, `metadata` and any earlier attributes are not assigned. They keep whatever the record held.
- The bounds and the target language are hard-coded, not configurable.
- The digest is recorded but not compared with anything: uniqueness is the constant `true`.

`ProofResponse` is defined outside the modelled file. Its constructor's defaults are assumed: `valid` false, all five scores zero, `attributes` and `metadata` empty. These defaults are what makes the no-input record have a zero score.

## Model

| member | source | states |
|---|---|---|
| `MyProof.FirstNonJsonIndex` | my_proof/proof.py:33-39 | the index at which the selection stops: every name before it ends in `.json`, and the name at it (if within the listing) does not |
| `MyProof.SelectFile` | my_proof/proof.py:33-39 | the `for`/`break` loop over the listing yields exactly `FirstNonJson(listing)` |
| `MyProof.FirstNonJsonCharacterized` | my_proof/proof.py:33-41 | no file is chosen iff every name ends in `.json` (including an empty listing); a chosen name is at some position behind only `.json` names and does not itself end in `.json` |
| `MyProof.FirstNonJsonIgnoresRest` | my_proof/proof.py:36-39 | once a name is chosen, appending any names after the listing changes neither the choice nor its position (nothing after the `break` is examined) |
| `MyProof.AttributeNamesDistinct` | my_proof/proof.py:79-87 | the attribute keys are pairwise distinct strings, so a map keyed by `Attribute` is the dictionary keyed by name |
| `MyProof.ScoredRecord` | my_proof/proof.py:50-91 | on the scored path: `valid` iff the detector answered `"hi"` and 50 <= length <= 5000; `score` is One iff `valid`; `authenticity` and `quality` are One iff their check holds; `ownership` and `uniqueness` are One; metadata is exactly `{dlp_id: config's dlp_id}`; the record's own `dlp_id` is kept |
| `MyProof.ScoredRecordAttributes` | my_proof/proof.py:79-87 | on the scored path the attributes have exactly the seven keys and are replaced, not merged: detected code or `"detection_failed"`, the flags agreeing with the sub-scores, the text length, the digest, the bounds 50 and 5000 |
| `MyProof.RejectedRecord` | my_proof/proof.py:41-45 | with no file: `valid` is false, the `error` attribute is the fixed message, the other attributes and every other field are left as they were |
| `MyProof.NoInputOnFreshRecord` | my_proof/proof.py:41-45 | on a freshly built record, a listing of only `.json` names (or none) gives `valid` false, score zero, and exactly `{error: message}` as attributes |
| `MyProof.ScoredFileIsFirstNonJson` | my_proof/proof.py:33-48 | if the name at position k is the first non-`.json` name, the record is the scored record of the text read from that name |
| `MyProof.ConsistentAfterGenerate` | my_proof/proof.py:41-73 | after a run, `score` agrees with `valid` iff a file was scored or the record's earlier score was zero |
| `MyProof.GenerateIdempotent` | my_proof/proof.py:21-93 | running the pipeline again on its own result, with the same inputs, leaves the record unchanged |
| `MyProof.ProofResponse.constructor` | my_proof/proof.py:19 | a new record holds the given `dlp_id` and the assumed defaults |
| `MyProof.Proof.constructor` | my_proof/proof.py:17-19 | keeps the configuration; the record is new and carries the configured `dlp_id` |
| `MyProof.Proof.Generate` | my_proof/proof.py:21-93 | returns the object's own record, whose new state is `GenerateSpec` of its old state: the rejected form with no qualifying file, otherwise the scored form of the first non-`.json` file's text |
| `MyProof.GenerateIsDeterministic` | my_proof/proof.py:17-93 | given the same listing, file contents, detector answer and digest function, two runs on one proof object and one run on another built from the same configuration give the same record; it belongs to the configured pool, its score agrees with its verdict, and with a file found its metadata is exactly `{dlp_id}` |

## Left out

- Directory listing, path joining and file reading (`os.listdir`, `os.path.join`, `open(...).read()`). These are I/O, so they are parameters. The listing order is whatever the listing gives. I/O and decoding errors, which propagate to the caller, are not modelled. The `if not file_to_process` test is modelled as "no name was chosen": a joined path is never empty, because directory entries have non-empty names.
- `langdetect.detect`: a foreign statistical classifier, and a randomised one unless it is seeded. Its answer for this run is a parameter. Exceptions other than its own detection exception, which the source does not catch, are not modelled.
- The initial `language_detected = "unknown"` is modelled (`Generate` assigns it), but it is never observable: the detector either answers or raises, and both branches overwrite it before it is recorded.
- SHA-256 and the 64-hex-digit form of the digest: `digest` is an arbitrary function of the text, so only its determinism is captured.
- `logging` calls: they have no effect on the record.
- Floating point: the only scores ever assigned are 0.0 and 1.0, so they are the two-valued `Score`.
- The `ProofResponse` class definition and its serialisation are not part of this model. Its default field values are the assumption stated above.
- A missing `dlp_id` or `input_dir` key in the configuration (a `KeyError`). `Config` always has both fields, and `dlp_id` is kept as an opaque `Value`.
- Aliasing of the configuration dictionary: the source keeps a reference to the caller's dict and reads `dlp_id` from it again when it fills the metadata. `Config` is an immutable value, so the model assumes nobody changes the dict between construction and `generate`.
- `Config.inputDir` is never read by the model: the `listing` parameter stands for the listing of that directory.
- The detector answer is a parameter of each run, so repeated runs agree only when they are given the same answer; the unseeded detector may answer differently on the same text.
- The unused `json` import has no behaviour to model.
