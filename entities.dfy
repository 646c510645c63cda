/** The records the detectors produce and the anonymizer consumes. */
module Entities {
  import opened Wrappers
  import opened Dict

  /** One detector record, `{"method": ..., "type": ..., "languages": [...]}`.
      `entityType` is `None` when the record has no "type" entry; rule-based
      records have no "languages" entry, written here as the empty list. */
  datatype EntityRecord = EntityRecord(detectionMethod: string, entityType: Option<string>, languages: seq<string>)

  /** Surface text to record, in detection order. */
  type EntityMap = Dict<EntityRecord>
}
