/** The JSON document both Python exporters write for the Unity renderer:
    {"model": "gerstner", "gravity": g, "waves": [ {field: value, ...}, ... ]}.
    Each wave entry is a flat JSON object from field names to numbers. */
module Interchange {

  type Entry = map<string, real>

  datatype Document = Document(model: string, gravity: real, waves: seq<Entry>)

  const ModelName: string := "gerstner"

  /** The gravity both exporters and height_at use unless told otherwise. */
  const DefaultGravity: real := 9.81
}
