/**
 * The decode-from-JSON protocol: the library's primitive decoders and its
 * `get(_:)`, which the program relies on, and the program's own URL and Date
 * conformances.
 */
module Decoding {
  import opened Wrappers
  import opened Json
  import opened Foundation

  /** The library's decoding errors the program can raise. */
  datatype DecodeError = BadValue(value: Json) | KeyNotFound(key: string)

  /** The library's `String` decoder: accepts only a JSON string. */
  function DecodeString(json: Json): (r: Result<string, DecodeError>)
    ensures r.Success? <==> json.String?
    ensures r.Success? ==> json == String(r.value)
    ensures r.Failure? ==> r.error == BadValue(json)
  {
    match json
    case String(s) => Success(s)
    case _ => Failure(BadValue(json))
  }

  /** The library's `Bool` decoder: accepts only a JSON boolean. */
  function DecodeBool(json: Json): (r: Result<bool, DecodeError>)
    ensures r.Success? <==> json.Bool?
    ensures r.Success? ==> json == Bool(r.value)
    ensures r.Failure? ==> r.error == BadValue(json)
  {
    match json
    case Bool(b) => Success(b)
    case _ => Failure(BadValue(json))
  }

  /** The library's `Int` decoder (64-bit `Int`): accepts only a JSON integer. */
  function DecodeInt(json: Json): (r: Result<int64, DecodeError>)
    ensures r.Success? <==> json.Integer?
    ensures r.Success? ==> json == Integer(r.value)
    ensures r.Failure? ==> r.error == BadValue(json)
  {
    match json
    case Integer(i) => Success(i)
    case _ => Failure(BadValue(json))
  }

  /** `json` is an object with a member named exactly `key`. */
  predicate HasKey(json: Json, key: string) {
    json.Object? && HasMember(json.members, key)
  }

  /**
   * The library's `get(key)`: the first member named `key` decoded with the
   * target type's decoder; `KeyNotFound(key)` when there is no such member
   * or `json` is not an object. The decoder's own error passes through unchanged.
   */
  function Get<T>(json: Json, key: string, decode: Json -> Result<T, DecodeError>): (r: Result<T, DecodeError>)
    ensures !HasKey(json, key) ==> r == Failure(KeyNotFound(key))
    ensures HasKey(json, key) ==>
      exists i :: FirstWithKey(json.members, key, i) && r == decode(json.members[i].1)
  {
    match json
    case Object(members) =>
      (match Lookup(members, key)
       case None => Failure(KeyNotFound(key))
       case Some(v) => decode(v))
    case _ => Failure(KeyNotFound(key))
  }

  /** `URL.init(json:)` (main.swift:31-40). */
  function DecodeUrl(p: Platform, json: Json): (r: Result<Url, DecodeError>)
    ensures r.Success? <==> json.String? && p.parseUrl(json.text).Some?
    ensures r.Success? ==> p.parseUrl(json.text) == Some(r.value)
    ensures r.Failure? ==> r.error == BadValue(json)
  {
    match json
    case String(s) =>
      (match p.parseUrl(s)
       case None => Failure(BadValue(json))
       case Some(url) => Success(url))
    case _ => Failure(BadValue(json))
  }

  /** The URL decoder bound to a platform, as `get(key)` takes it. */
  function UrlDecoder(p: Platform): Json -> Result<Url, DecodeError> {
    json => DecodeUrl(p, json)
  }

  /** `Date.init(json:)` (main.swift:45-65). */
  function DecodeDate(p: Platform, json: Json): (r: Result<Date, DecodeError>)
    ensures r.Success? <==>
      json.Double? || json.Integer? || (json.String? && p.parseTimestamp(json.text).Some?)
    ensures json.Double? ==> r == Success(p.dateFromDouble(json.real64))
    ensures json.Integer? ==> r.Success? && r.value.sinceEpoch == r.value.sinceEpoch.Floor as real
    ensures json.Integer? ==>
      r.value.sinceEpoch.Floor % Spacing(Abs(json.number as int)) == 0
    ensures json.Integer? ==>
      2 * Abs(r.value.sinceEpoch.Floor - json.number as int) <= Spacing(Abs(json.number as int))
    ensures json.String? && r.Success? ==> p.parseTimestamp(json.text) == Some(r.value)
    ensures r.Failure? ==> r.error == BadValue(json)
  {
    match json
    case Double(d) => Success(p.dateFromDouble(d))
    case Integer(i) =>
      ToBinary64Nearest(i as int);
      ToBinary64OnGrid(i as int);
      Success(Date(ToBinary64(i as int) as real))
    case String(s) =>
      (match p.parseTimestamp(s)
       case None => Failure(BadValue(json))
       case Some(date) => Success(date))
    case _ => Failure(BadValue(json))
  }

  /** The Date decoder bound to a platform, as `get(key)` takes it. */
  function DateDecoder(p: Platform): Json -> Result<Date, DecodeError> {
    json => DecodeDate(p, json)
  }

  /** An integer of magnitude at most 2^53 decodes to exactly that many seconds after the epoch. */
  lemma DecodeDateIntegerExact(p: Platform, i: int64)
    requires WithinSignificand(i as int)
    ensures DecodeDate(p, Integer(i)) == Success(Date(i as real))
  {
    ToBinary64Exact(i as int);
  }

  /** The integer 0 decodes to the Unix epoch. */
  lemma DecodeDateZeroIsEpoch(p: Platform)
    ensures DecodeDate(p, Integer(0)) == Success(Epoch)
  {
    DecodeDateIntegerExact(p, 0);
  }
}
