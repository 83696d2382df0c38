/** `pipeline.py`, and the decoding in front of it. */
module Pipeline {
  /** The value of a well-formed message: bytes that are not JSON, or a JSON object, of which only the
      truth of its `bad_json` entry matters here. */
  datatype Input = NotJson(raw: string) | Object(badJson: bool, body: string)

  datatype Record = Record(topic: string, value: string, reason: string)

  /** The record one message is turned into. */
  function Process(i: Input): Record {
    match i
    case NotJson(raw) => Record("rau_events_dlq", raw, "deserialization_error")
    case Object(badJson, body) =>
      if badJson then Record("rau_events_dlq", "{\"error\": \"bad\"}", "bad_event")
      else Record("alerts", body, "")
  }

  /** Only a JSON object not marked bad goes to `alerts`, unchanged and without a reason; everything else
      goes to the dead-letter topic: what did not parse with its bytes, a bad event with a fixed body, each
      with its own reason. */
  lemma Routing(i: Input)
    ensures Process(i).topic == "alerts" <==> i.Object? && !i.badJson
    ensures Process(i).topic == "alerts" ==> Process(i).value == i.body && Process(i).reason == ""
    ensures Process(i).topic != "alerts" ==> Process(i).topic == "rau_events_dlq"
    ensures Process(i).reason == "deserialization_error" <==> i.NotJson?
    ensures Process(i).reason == "bad_event" <==> i.Object? && i.badJson
    ensures i.NotJson? ==> Process(i).value == i.raw
    ensures i.Object? && i.badJson ==> Process(i).value == "{\"error\": \"bad\"}"
  {
    assert "alerts"[0] != "rau_events_dlq"[0] && "deserialization_error"[0] != "bad_event"[0];
    assert |""| == 0 < |"bad_event"| < |"deserialization_error"|;
  }
}
