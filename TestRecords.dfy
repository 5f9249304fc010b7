/**
 * The two record trees the upload callback works on: the original test
 * record kept by the test framework, which holds the raw attachment bytes,
 * and the converted tree that `data.convert_to_base_types` makes of it,
 * which mirrors it with JSON-safe values only.
 */
module TestRecords {
  import opened JsonValues
  import Base64

  /** A named binary artifact of a phase. */
  datatype Attachment = Attachment(data: seq<Base64.byte>, mimetype: string)

  /** A phase of the original record: its attachments by name, and the rest
    * of its attributes (name, measurements, timing) as base values. */
  datatype PhaseRecord = PhaseRecord(attachments: map<string, Attachment>, attributes: map<string, Json>)

  /** The original record: its phases in execution order and its other
    * attributes (`dut_id`, `outcome`, `start_time_millis`, `code_info`,
    * `log_records`, ...). */
  datatype TestRecord = TestRecord(phases: seq<PhaseRecord>, attributes: map<string, Json>)

  /** A converted attachment is a dict; inlining sets its `data` key. */
  type Entry = map<string, Json>

  const DATA_KEY: string := "data"

  /** A converted phase: the dict under its `attachments` key, and its other keys. */
  datatype ConvertedPhase = ConvertedPhase(attachments: map<string, Entry>, fields: map<string, Json>)

  /** The converted record: the list under its `phases` key, and its other keys. */
  datatype ConvertedRecord = ConvertedRecord(phases: seq<ConvertedPhase>, fields: map<string, Json>)
}
