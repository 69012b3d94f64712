/** The telemetry records that producers hand to the reporter's queue. */
module Events {
  import opened Wrappers

  /** An event as the reporter sees it. The reporter never inspects the payload; the variants
      are the records built in src/monitor/behavior.js, and `External` stands for the records
      of producers that are not part of this model (errors, performance, network calls). */
  datatype Event =
    | PageView(url: string, title: string, timestamp: int, referrer: string)
    | Click(timestamp: int, x: int, y: int, target: string, tag: string, text: Option<string>)
    | PageStay(duration: int, timestamp: int)
    | CustomEvent(eventName: string, data: string, timestamp: int)
    | External(kind: string, timestamp: int)
}
