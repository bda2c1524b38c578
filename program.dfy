/**
 * The top-level script (main.swift:98-110): fetch the repository document,
 * and either stop with status 1 when no body came back, or parse and decode
 * it and print one line, ending with status 0.
 */
module Program {
  import opened Wrappers
  import opened Json
  import opened Foundation
  import opened Decoding
  import opened Github

  type Bytes = seq<bv8>

  /** `URLResponse` metadata; the script never reads it. */
  datatype Response = Response(statusCode: int)

  /** A transport error; the script never inspects it. */
  datatype TransportError = TransportError(description: string)

  /** The error the JSON parser throws on malformed bytes. */
  datatype ParseError = ParseError(description: string)

  /** What `syncDataTask(with:)` hands back: three independent optional slots. */
  datatype Fetched = Fetched(data: Option<Bytes>, response: Option<Response>, error: Option<TransportError>)

  /** The errors the script's `catch` receives. */
  datatype ProgramError = Unparsable(parse: ParseError) | Undecodable(decode: DecodeError)

  /**
   * The one line the script prints: the repository's full name and star
   * count, or the error that was caught.
   */
  datatype Line = Stars(fullName: string, stars: int64) | Caught(error: ProgramError)

  /** How the process ends: its exit status and the line it printed, if any. */
  datatype Termination = Termination(status: int, line: Option<Line>)

  /**
   * The `do`/`catch` block (main.swift:101-110) on a body: parse it, decode
   * a `Repo` from the whole document, and report the summary or the first error.
   */
  function Respond(p: Platform, parse: Bytes -> Result<Json, ParseError>, body: Bytes): (line: Line)
    ensures line.Stars? <==> parse(body).Success? && DecodeRepo(p, parse(body).value).Success?
    ensures line.Stars? ==>
      var repo := DecodeRepo(p, parse(body).value).value;
      line.fullName == repo.fullName && line.stars == repo.stars
    ensures parse(body).Failure? ==> line == Caught(Unparsable(parse(body).error))
    ensures parse(body).Success? && DecodeRepo(p, parse(body).value).Failure? ==>
      line == Caught(Undecodable(DecodeRepo(p, parse(body).value).error))
  {
    match parse(body)
    case Failure(e) => Caught(Unparsable(e))
    case Success(json) =>
      match DecodeRepo(p, json)
      case Failure(e) => Caught(Undecodable(e))
      case Success(repo) => Stars(repo.fullName, repo.stars)
  }

  /**
   * The whole script after the fetch (main.swift:99-110): no body means exit
   * status 1 and nothing printed; a body means one printed line and status 0.
   */
  function Run(p: Platform, parse: Bytes -> Result<Json, ParseError>, fetched: Fetched): (t: Termination)
    ensures t.status == (if fetched.data.None? then 1 else 0)
    ensures t.line.None? <==> fetched.data.None?
    ensures fetched.data.Some? ==> t.line == Some(Respond(p, parse, fetched.data.value))
  {
    match fetched.data
    case None => Termination(1, None)
    case Some(body) => Termination(0, Some(Respond(p, parse, body)))
  }

  /** The response and error slots never influence the outcome; only the body does. */
  lemma RunIgnoresResponseAndError(p: Platform, parse: Bytes -> Result<Json, ParseError>, data: Option<Bytes>,
                                   r1: Option<Response>, e1: Option<TransportError>,
                                   r2: Option<Response>, e2: Option<TransportError>)
    ensures Run(p, parse, Fetched(data, r1, e1)) == Run(p, parse, Fetched(data, r2, e2))
  {
  }

  /** The values of the sample document, in declaration order of the keys. */
  function SampleValues(): seq<Json> {
    [String("json"), String("vdka/json"), String("d"), String("https://github.com/vdka/json"),
     Bool(false), Integer(42), String("2016-01-01T00:00:00Z"), String("2016-01-02T00:00:00Z"),
     String("2016-01-03T00:00:00Z")]
  }

  /** The sample document: the nine keys in declaration order. */
  function SampleDocument(): Json {
    SchemaObject(SampleValues())
  }

  /**
   * The platform accepts the sample's URL and its three timestamps. What the
   * URL parser and the date formatter accept is not modelled, so the sample
   * lemmas take this as a premise.
   */
  predicate AcceptsSample(p: Platform) {
    && p.parseUrl("https://github.com/vdka/json").Some?
    && p.parseTimestamp("2016-01-01T00:00:00Z").Some?
    && p.parseTimestamp("2016-01-02T00:00:00Z").Some?
    && p.parseTimestamp("2016-01-03T00:00:00Z").Some?
  }

  /** The fields the sample document decodes to, given a platform that accepts its URL and timestamps. */
  function SampleFields(p: Platform): seq<Field>
    requires AcceptsSample(p)
  {
    [Text("json"), Text("vdka/json"), Text("d"), Link(p.parseUrl("https://github.com/vdka/json").value),
     Flag(false), Count(42), Stamp(p.parseTimestamp("2016-01-01T00:00:00Z").value),
     Stamp(p.parseTimestamp("2016-01-02T00:00:00Z").value), Stamp(p.parseTimestamp("2016-01-03T00:00:00Z").value)]
  }

  /** Each sample value decodes, as the kind its key declares, to the matching sample field. */
  lemma SampleValueDecodes(p: Platform, k: int)
    requires AcceptsSample(p)
    requires 0 <= k < 9
    ensures DecodeAs(p, RepoSchema[k].1, SampleValues()[k]) == Success(SampleFields(p)[k])
  {
    RepoSchemaEntries();
    var v, f := SampleValues(), SampleFields(p);
    if k == 0 {
      assert DecodeAs(p, TextKind, v[0]) == Success(f[0]);
    } else if k == 1 {
      assert DecodeAs(p, TextKind, v[1]) == Success(f[1]);
    } else if k == 2 {
      assert DecodeAs(p, TextKind, v[2]) == Success(f[2]);
    } else if k == 3 {
      assert DecodeAs(p, UrlKind, v[3]) == Success(f[3]);
    } else if k == 4 {
      assert DecodeAs(p, FlagKind, v[4]) == Success(f[4]);
    } else if k == 5 {
      assert DecodeAs(p, CountKind, v[5]) == Success(f[5]);
    } else if k == 6 {
      assert DecodeAs(p, DateKind, v[6]) == Success(f[6]);
    } else if k == 7 {
      assert DecodeAs(p, DateKind, v[7]) == Success(f[7]);
    } else {
      assert DecodeAs(p, DateKind, v[8]) == Success(f[8]);
    }
  }

  /** Each key of the sample document decodes to the matching sample field. */
  lemma SampleEntry(p: Platform, k: int)
    requires AcceptsSample(p)
    requires 0 <= k < 9
    ensures DecodeEntry(p, SampleDocument(), RepoSchema[k]) == Success(SampleFields(p)[k])
  {
    SchemaObjectEntries(p, SampleValues(), k);
    SampleValueDecodes(p, k);
  }

  /** The sample document decodes, given a platform that accepts its URL and timestamps. */
  lemma SampleDecodes(p: Platform)
    requires AcceptsSample(p)
    ensures DecodeRepo(p, SampleDocument()).Success?
    ensures DecodeRepo(p, SampleDocument()).value.fullName == "vdka/json"
    ensures DecodeRepo(p, SampleDocument()).value.stars == 42
  {
    var json := SampleDocument();
    forall k | 0 <= k < 9 ensures DecodeEntry(p, json, RepoSchema[k]) == Success(SampleFields(p)[k]) {
      SampleEntry(p, k);
    }
    DecodeRepoFromEntries(p, json, SampleFields(p));
    var repo := DecodeRepo(p, json).value;
    assert Fields(repo)[1] == Text(repo.fullName) && Fields(repo)[5] == Count(repo.stars);
  }

  /**
   * End to end: a body that parses to the sample document prints
   * "vdka/json" with 42 stars and exits 0, provided the platform accepts the
   * sample's URL and timestamps (their parsers are not modelled).
   */
  lemma SampleRun(p: Platform, parse: Bytes -> Result<Json, ParseError>, body: Bytes,
                  response: Option<Response>, error: Option<TransportError>)
    requires parse(body) == Success(SampleDocument())
    requires AcceptsSample(p)
    ensures Run(p, parse, Fetched(Some(body), response, error)) == Termination(0, Some(Stars("vdka/json", 42)))
  {
    SampleDecodes(p);
  }
}
