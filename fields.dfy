/** Reading one field of a cached hash into a response record, the way every `From<...Cache>`
    conversion of the handlers does it: a missing field reads as "0" (numbers and flags) or
    "" (text), and a value that does not parse reads as the type's default. */
module Fields {
  import opened Common
  import opened Text

  /** `data.get(name).unwrap_or(&"0").parse::<uN>().unwrap_or_default()` for an unsigned type
      whose values lie below `bound`. */
  function NumberField(data: map<string, string>, name: string, bound: nat): (n: nat)
    requires bound > 0
    ensures n < bound
    ensures name in data && ParseUnsigned(data[name], bound).Some? ==> n == ParseUnsigned(data[name], bound).value
    ensures name !in data || ParseUnsigned(data[name], bound).None? ==> n == 0
  {
    if name in data then ParseOrZero(data[name], bound) else ParseOrZero("0", bound)
  }

  /** `data.get(name).unwrap_or(&missing)` read as text: "" for the text fields. The `f32` and
      `f64` fields are read this way with "0", their stored text standing for the number
      parsed from it. */
  function TextField(data: map<string, string>, name: string, missing: string): (t: string)
    ensures name in data ==> t == data[name]
    ensures name !in data ==> t == missing
  {
    if name in data then data[name] else missing
  }

  /** `data.get(name).unwrap_or(&"0").parse::<bool>().unwrap_or_default()`: true exactly when
      the stored text is "true". */
  function FlagField(data: map<string, string>, name: string): (b: bool)
    ensures b <==> name in data && data[name] == "true"
  {
    var t := if name in data then data[name] else "0";
    match ParseBool(t)
    case Some(v) => v
    case None => false
  }

  /** What `to_string` wrote, the decoder reads back. */
  lemma NumberFieldOfRendered(data: map<string, string>, name: string, n: nat, bound: nat)
    requires n < bound && name in data && data[name] == NatToString(n)
    ensures NumberField(data, name, bound) == n
  {
    ParseNatToString(n, bound);
  }

  lemma FlagFieldOfRendered(data: map<string, string>, name: string, b: bool)
    requires name in data && data[name] == BoolToString(b)
    ensures FlagField(data, name) == b
  {
  }
}
