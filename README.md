# File transfer API upload callback, modelled in Dafny

This project models `FileTransferAPI`, the output-callback factory of the
OpenHTF file transfer API example
(`examples/LoggingToFileTransferAPI/file_transfer_api_factory.py`). When a
test run finishes, the callback does four things:

- it converts the test record into a JSON-safe tree;
- it inlines every attachment as base64 text, pairing the converted phases
  with the original phases by position;
- it resolves a destination path from a pattern;
- it POSTs a two-key JSON envelope to the endpoint and treats any status
  other than 200 as `UploadFailedError`.

Modules, leaves first:

- `Results`: `Option` and `Result`, which stand for Python's exceptions.
- `JsonValues`: the base types of a converted tree, and Python's truth test.
- `Base64`: the standard encoding of section 4 of RFC 4648 (what
  `base64.standard_b64encode` produces). It is written in the RFC's two
  steps: bytes to 6-bit values, then values to characters. A strict decoder
  is proved to be its exact inverse in both directions.
- `TestRecords`: the original record (phases holding attachments and their
  bytes) and the converted tree (phases holding a dict of attachment
  entries, each entry itself a dict).
- `Inlining`: the positional inlining of `convert_to_dict`. Its two nested
  loops are two methods, one per loop, proved against the specification
  functions `Inlined` and `InlinedPhase`.
  Lemmas about `Inlined` state what inlining promises.
- `Delivery`: the envelope, the fixed headers, the request and the status
  check.
- `FileTransfer`: the class `FileTransferApi` (constructor, `ConvertToDict`,
  `SerializeTestRecord`, `SaveToDisk`, `Upload`, `RunUploadCallback`).

The model treats as given inputs every library call whose code is not part
of this model: `data.convert_to_base_types` (called in two ways),
`util.format_string`, the JSON encoder, `json.dumps` and
`httplib2.Http().request`. They are the function-typed fields of a
`Collaborators` value. The path pattern's formatting may fail. That failure
is the `None` result of `formatString`.

## Model

| member | source | states |
|---|---|---|
| `FileTransfer.EndpointFor` | examples/LoggingToFileTransferAPI/file_transfer_api_factory.py:22 | the endpoint is exactly the server address followed by `/api/logging/LogAdditionalDataRaw` |
| `FileTransfer.WithAllowNanDefault` | examples/LoggingToFileTransferAPI/file_transfer_api_factory.py:27 | `setdefault` keeps every supplied keyword argument unchanged, adds only `allow_nan`, and adds it as `False` when it was missing |
| `FileTransfer.JsonSafeUnlessAllowed` | examples/LoggingToFileTransferAPI/file_transfer_api_factory.py:27-28 | conversion is JSON-safe exactly when `allow_nan` was not supplied or was supplied with a false value; for a supplied boolean, json_safe is its negation |
| `JsonValues.Truthy` | examples/LoggingToFileTransferAPI/file_transfer_api_factory.py:36 | Python's truth test, on which `not` in the source relies: a value is false exactly when it is None, False, 0, or an empty string, list or dict |
| `FileTransfer.JsonSafe` | examples/LoggingToFileTransferAPI/file_transfer_api_factory.py:36 | json_safe is `not allow_nan`: true for None, the negation of a boolean, true exactly for 0 among integers and for the empty string among strings |
| `FileTransfer.FileTransferApi.constructor` | examples/LoggingToFileTransferAPI/file_transfer_api_factory.py:21-29 | sets the endpoint from the given or default address, turns `inline_attachments` on, stores the defaulted encoder options, and stores `allow_nan` as the value those options hold |
| `FileTransfer.InlinedTree` | examples/LoggingToFileTransferAPI/file_transfer_api_factory.py:37-43 | the tree `convert_to_dict` returns: the converted tree itself when inlining is off; otherwise undefined exactly when some lookup fails, and the inlined tree when none does; the record's other keys and its number of phases are kept |
| `FileTransfer.PatternGiven` | examples/LoggingToFileTransferAPI/file_transfer_api_factory.py:48 | a pattern passes the `if not pattern` guard of `save_to_disk` and `upload` (line 64) exactly when it is given and true under Python's truth test, i.e. non-empty |
| `FileTransfer.FileTransferApi.ConvertToDict` | examples/LoggingToFileTransferAPI/file_transfer_api_factory.py:34-43 | converts with json_safe = not allow_nan. With inlining on, it succeeds exactly when every name resolves and then returns the inlined tree; otherwise it reports a missing name of the first phase whose lookups fail |
| `FileTransfer.FileTransferApi.SerializeTestRecord` | examples/LoggingToFileTransferAPI/file_transfer_api_factory.py:31-32 | returns the encoder's text of the converted and inlined tree, built with the stored options; a lookup failure propagates |
| `FileTransfer.FileTransferApi.SaveToDisk` | examples/LoggingToFileTransferAPI/file_transfer_api_factory.py:45-59 | a missing or empty pattern raises `RuntimeError('Must specify a filename_pattern.')` and leaves the object unchanged; otherwise it keeps an `OutputToJSON` with that pattern, the inline flag and indent 2, and returns the callback |
| `FileTransfer.FileTransferApi.Upload` | examples/LoggingToFileTransferAPI/file_transfer_api_factory.py:61-65 | a missing or empty pattern raises `RuntimeError('Must specify a filepath.')`; any other pattern gives a callback that captures it |
| `FileTransfer.FileTransferApi.RunUploadCallback` | examples/LoggingToFileTransferAPI/file_transfer_api_factory.py:67-96 | a pattern that fails to format raises before anything is sent; a lookup failure in inlining raises before anything is sent; otherwise exactly one POST of the envelope (formatted path, serialised record) with the fixed headers goes to the endpoint, and the call returns normally iff the status is 200, else raises `UploadFailedError` with the response content |
| `Inlining.PairedCount` | examples/LoggingToFileTransferAPI/file_transfer_api_factory.py:38 | `zip` pairs as many phases as the shorter of the two lists holds |
| `Inlining.Inlined` | examples/LoggingToFileTransferAPI/file_transfer_api_factory.py:37-43 | the inlined tree keeps the record's other keys and its number of phases |
| `Inlining.InlinedPhase` | examples/LoggingToFileTransferAPI/file_transfer_api_factory.py:39-42 | an inlined phase keeps its other keys and its set of attachment names |
| `Inlining.InlinedEntryStores` | examples/LoggingToFileTransferAPI/file_transfer_api_factory.py:41-42 | `InlinedEntry` stores the base64 text of the original bytes under `data`, adds no other key, and keeps every other key's value |
| `Inlining.InlineAttachments` | examples/LoggingToFileTransferAPI/file_transfer_api_factory.py:38-42 | the outer loop over the `zip` pairs, with the inner loop in `InlinePhase`, succeeds iff every attachment name of every paired converted phase exists in the original phase. On success the result is `Inlined`; on failure the error names a phase before which every lookup succeeded, and a name of that phase missing from the original |
| `Inlining.InlinePhase` | examples/LoggingToFileTransferAPI/file_transfer_api_factory.py:39-42 | the inner loop succeeds iff every attachment name of the phase exists in the original phase, then returns `InlinedPhase`; on failure it names the phase's position and one of its names missing from the original |
| `Inlining.InlinedData` | examples/LoggingToFileTransferAPI/file_transfer_api_factory.py:38-42 | for every paired phase and every attachment name of it, the entry's `data` is the base64 text of the original attachment's bytes, and decoding it gives those bytes back exactly |
| `Inlining.InlinedDataShape` | examples/LoggingToFileTransferAPI/file_transfer_api_factory.py:41-42 | the inlined text is 4·⌈n/3⌉ characters for n bytes: standard-alphabet characters followed by exactly the `=` padding the last group needs |
| `Inlining.InlinedFrame` | examples/LoggingToFileTransferAPI/file_transfer_api_factory.py:38-43 | inlining keeps the record's other keys, the number of phases, the phases past the `zip` length, each paired phase's other keys and its set of attachment names |
| `Inlining.InlinedEntryFrame` | examples/LoggingToFileTransferAPI/file_transfer_api_factory.py:41-42 | within an entry, every key other than `data` keeps its value, and `data` is the only key that may be added |
| `Inlining.InlinedIdempotent` | examples/LoggingToFileTransferAPI/file_transfer_api_factory.py:38-42 | inlining an inlined tree against the same record still resolves and changes nothing |
| `Base64.Encode` | examples/LoggingToFileTransferAPI/file_transfer_api_factory.py:41-42 | the standard base64 text of n bytes has 4·⌈n/3⌉ characters; what it spells is stated by the lemmas below |
| `Base64.DecodeEncode` | examples/LoggingToFileTransferAPI/file_transfer_api_factory.py:41-42 | decoding the standard base64 text of any bytes gives those bytes back |
| `Base64.EncodeDecode` | examples/LoggingToFileTransferAPI/file_transfer_api_factory.py:41-42 | every text the strict decoder accepts is the encoding of what it decodes to, so the encoding is one-to-one onto the decoder's domain |
| `Base64.EncodeShape` | examples/LoggingToFileTransferAPI/file_transfer_api_factory.py:41-42 | the encoded text has 4·⌈n/3⌉ characters, uses only the standard alphabet, and ends in as many `=` as the last group lacks bytes |
| `Base64.Sextets` | examples/LoggingToFileTransferAPI/file_transfer_api_factory.py:41 | the first step of RFC 4648's encoding yields four values for every started group of three bytes |
| `Base64.JoinSextets` | examples/LoggingToFileTransferAPI/file_transfer_api_factory.py:41 | joining the 6-bit values of any bytes gives those bytes back |
| `Base64.SextetsOfJoin` | examples/LoggingToFileTransferAPI/file_transfer_api_factory.py:41 | any value sequence that joins is the 6-bit split of what it joins to, pads and zero-filled bits included |
| `Base64.ReadSpell` | examples/LoggingToFileTransferAPI/file_transfer_api_factory.py:41-42 | reading back the characters of any values through the RFC 4648 table gives those values |
| `Base64.SpellRead` | examples/LoggingToFileTransferAPI/file_transfer_api_factory.py:41-42 | every text readable through the table is the spelling of what it reads to |
| `Base64.SymbolOfCharOf` | examples/LoggingToFileTransferAPI/file_transfer_api_factory.py:41-42 | the table is one-to-one: each value's character reads back as that value; values 0-63 give alphabet characters and the pad gives `=` |
| `Delivery.Envelope` | examples/LoggingToFileTransferAPI/file_transfer_api_factory.py:79-82 | the body dict has exactly the keys `filepath` and `newline`, holding the path and the serialised record as strings |
| `Delivery.EnvelopeRoundTrip` | examples/LoggingToFileTransferAPI/file_transfer_api_factory.py:79-82 | reading an envelope back gives exactly the formatted path and the serialised record it was built from |
| `Delivery.EnvelopeFieldsInverse` | examples/LoggingToFileTransferAPI/file_transfer_api_factory.py:79-82 | any JSON value read as an envelope is exactly the envelope of the two strings read from it |
| `Delivery.UploadRequest` | examples/LoggingToFileTransferAPI/file_transfer_api_factory.py:83-92 | the request is a POST to the endpoint with the fixed headers, and its body is `json.dumps` of a value that reads as the envelope of the path and the serialised record |
| `Delivery.HeadersFixed` | examples/LoggingToFileTransferAPI/file_transfer_api_factory.py:85-89 | exactly three headers are sent: User-Agent `OpenHTFTestFileTransferAPIClient / v1.0.0`, Content-Type `application/json`, Accept `*/*` |
| `Delivery.CheckStatus` | examples/LoggingToFileTransferAPI/file_transfer_api_factory.py:94-96 | the upload succeeds iff the status is 200; any other status gives `UploadFailedError` carrying the response content |

## Left out

- The converted tree is updated as a value, not in place. `as_dict` is created fresh by the converter and nothing else holds it, so the in-place update of the source cannot be observed. The model does not capture aliasing of entry dicts.
- Which missing name the lookup error reports is not pinned down. Python iterates a phase's attachments in insertion order and reports the first missing name in that order. Dafny maps are unordered, so the model promises only a missing name of the first failing phase.
- The converted tree is given typed fields `phases` and `attachments`. The model therefore does not cover a converter output without those keys, which would raise `KeyError` in the source.
- `data.convert_to_base_types`, `util.format_string`, `json.JSONEncoder.encode` and `json.dumps` are library code not part of this model. They are given functions. Their own failures (a `TypeError` for unknown encoder options, a `ValueError` for non-finite floats) are not modelled.
- `httplib2.Http().request` is network I/O. Its answer is a given function of the request. Transport failures, which the source simply lets propagate, are not modelled.
- Floating point, NaN and Infinity are not modelled. Only the `allow_nan` flag and the `json_safe` argument it decides are kept.
- The `save_to_disk_callback` closure (lines 54-57) only opens a file and writes to it, which is I/O. It captures only the object and uses the object's current `_output_to_json` each time it runs, so a callback from an earlier `save_to_disk` writes through the writer of the latest one. `SaveToDiskCallback` therefore carries nothing, and the model keeps that writer in `outputToJson`; the write itself is not modelled.
- `PatternGiven` and the constructor: a pattern is modelled as absent or a string, so the source's acceptance of any other true object as a pattern (lines 48 and 64) is not modelled; and `None` stands for an omitted `server_address`, so an explicit `server_address=None`, which the f-string at line 22 would turn into `None/api/logging/LogAdditionalDataRaw`, cannot be expressed.
- The `logging` calls (lines 68 and 95) are side effects only.
- `Base64.Decode` is stricter than Python's `base64.b64decode`: it rejects characters outside the alphabet and nonzero padding bits. It is only a means to state the round trips, not a model of a source operation.
