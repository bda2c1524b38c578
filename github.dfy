/**
 * `Github.Repo` and its decoder (main.swift:68-96), with an independent,
 * schema-driven statement of the same decode: the nine keys in declaration
 * order, each read with its field's decoder, the first failure winning.
 */
module Github {
  import opened Wrappers
  import opened Json
  import opened Foundation
  import opened Decoding

  /** The repository record (main.swift:70-80). */
  datatype Repo = Repo(
    name: string,
    fullName: string,
    description: string,
    url: Url,
    isFork: bool,
    stars: int64,
    createdAt: Date,
    updatedAt: Date,
    pushedAt: Date)

  /**
   * `Github.Repo.init(json:)` (main.swift:85-95): every field is read with
   * `get(key)` in declaration order; the first error thrown ends the decode.
   */
  function DecodeRepo(p: Platform, json: Json): Result<Repo, DecodeError> {
    var name        :- Get(json, "name", DecodeString);
    var fullName    :- Get(json, "full_name", DecodeString);
    var description :- Get(json, "description", DecodeString);
    var url         :- Get(json, "html_url", UrlDecoder(p));
    var isFork      :- Get(json, "fork", DecodeBool);
    var stars       :- Get(json, "stargazers_count", DecodeInt);
    var createdAt   :- Get(json, "created_at", DateDecoder(p));
    var updatedAt   :- Get(json, "updated_at", DateDecoder(p));
    var pushedAt    :- Get(json, "pushed_at", DateDecoder(p));
    Success(Repo(name, fullName, description, url, isFork, stars, createdAt, updatedAt, pushedAt))
  }

  // ---------------------------------------------------------------------------
  // The schema view of the record

  /** The declared type of a field. */
  datatype Kind = TextKind | UrlKind | FlagKind | CountKind | DateKind

  /** A decoded field value of any declared type. */
  datatype Field = Text(text: string) | Link(url: Url) | Flag(flag: bool) | Count(count: int64) | Stamp(date: Date)

  /** The decoder of a declared type. */
  function DecodeAs(p: Platform, kind: Kind, json: Json): (r: Result<Field, DecodeError>)
    ensures r.Failure? ==> r.error == BadValue(json)
  {
    match kind
    case TextKind  => var s :- DecodeString(json); Success(Text(s))
    case UrlKind   => var u :- DecodeUrl(p, json); Success(Link(u))
    case FlagKind  => var b :- DecodeBool(json); Success(Flag(b))
    case CountKind => var n :- DecodeInt(json); Success(Count(n))
    case DateKind  => var d :- DecodeDate(p, json); Success(Stamp(d))
  }

  /** The JSON keys of `Repo`'s fields and their declared types, in declaration order. */
  const RepoSchema: seq<(string, Kind)> := [
    ("name", TextKind),
    ("full_name", TextKind),
    ("description", TextKind),
    ("html_url", UrlKind),
    ("fork", FlagKind),
    ("stargazers_count", CountKind),
    ("created_at", DateKind),
    ("updated_at", DateKind),
    ("pushed_at", DateKind)
  ]

  /** A record's fields in declaration order, as `Field` values aligned with `RepoSchema`. */
  function Fields(r: Repo): seq<Field> {
    [Text(r.name), Text(r.fullName), Text(r.description), Link(r.url), Flag(r.isFork),
     Count(r.stars), Stamp(r.createdAt), Stamp(r.updatedAt), Stamp(r.pushedAt)]
  }

  /** Reading one schema entry: `get(key)` with the decoder of its declared type. */
  function DecodeEntry(p: Platform, json: Json, entry: (string, Kind)): (r: Result<Field, DecodeError>)
    ensures !HasKey(json, entry.0) ==> r == Failure(KeyNotFound(entry.0))
    ensures HasKey(json, entry.0) ==>
      exists i :: FirstWithKey(json.members, entry.0, i) && r == DecodeAs(p, entry.1, json.members[i].1)
    ensures HasKey(json, entry.0) && r.Failure? ==>
      exists i :: FirstWithKey(json.members, entry.0, i) && r.error == BadValue(json.members[i].1)
  {
    Get(json, entry.0, v => DecodeAs(p, entry.1, v))
  }

  /** Reading the entries of `schema` in order, stopping at the first failure. */
  function DecodeEntries(p: Platform, json: Json, schema: seq<(string, Kind)>): Result<seq<Field>, DecodeError> {
    if |schema| == 0 then Success([])
    else
      var f :- DecodeEntry(p, json, schema[0]);
      var rest :- DecodeEntries(p, json, schema[1..]);
      Success([f] + rest)
  }

  /** Entry `i` of `schema` is the first one that fails to decode. */
  predicate FirstFailing(p: Platform, json: Json, schema: seq<(string, Kind)>, i: int) {
    0 <= i < |schema| && DecodeEntry(p, json, schema[i]).Failure? &&
    forall j :: 0 <= j < i ==> DecodeEntry(p, json, schema[j]).Success?
  }

  /**
   * Reading entries is all-or-nothing with first-failure propagation: it
   * succeeds exactly when every entry decodes, with those values in order,
   * and otherwise fails with the error of the first entry that fails.
   */
  lemma {:induction false} DecodeEntriesSpec(p: Platform, json: Json, schema: seq<(string, Kind)>)
    ensures DecodeEntries(p, json, schema).Success? <==>
      forall i :: 0 <= i < |schema| ==> DecodeEntry(p, json, schema[i]).Success?
    ensures DecodeEntries(p, json, schema).Success? ==>
      var values := DecodeEntries(p, json, schema).value;
      |values| == |schema| &&
      forall i :: 0 <= i < |schema| ==> DecodeEntry(p, json, schema[i]) == Success(values[i])
    ensures DecodeEntries(p, json, schema).Failure? ==>
      exists i :: FirstFailing(p, json, schema, i) &&
        DecodeEntry(p, json, schema[i]).error == DecodeEntries(p, json, schema).error
  {
    if |schema| > 0 {
      DecodeEntriesSpec(p, json, schema[1..]);
      var head := DecodeEntry(p, json, schema[0]);
      var tail := DecodeEntries(p, json, schema[1..]);
      if head.Failure? {
        assert FirstFailing(p, json, schema, 0);
      } else if tail.Failure? {
        var i :| FirstFailing(p, json, schema[1..], i) && DecodeEntry(p, json, schema[1..][i]).error == tail.error;
        assert FirstFailing(p, json, schema, i + 1) by {
          forall j | 0 <= j < i + 1 ensures DecodeEntry(p, json, schema[j]).Success? {
            if j > 0 { assert schema[j] == schema[1..][j - 1]; }
          }
        }
      } else {
        forall i | 0 <= i < |schema| ensures DecodeEntry(p, json, schema[i]).Success? {
          if i > 0 { assert schema[i] == schema[1..][i - 1]; }
        }
        var values := DecodeEntries(p, json, schema).value;
        assert values == [head.value] + tail.value;
        forall i | 0 <= i < |schema| ensures DecodeEntry(p, json, schema[i]) == Success(values[i]) {
          if i > 0 { assert schema[i] == schema[1..][i - 1]; }
        }
      }
    }
  }

  /** Entry `(key, kind)` reads like `get(key)` with the decoder of `kind`'s Swift type. */
  predicate EntryIsGet(p: Platform, json: Json, key: string, kind: Kind) {
    var e := DecodeEntry(p, json, (key, kind));
    match kind
      case TextKind => var g := Get(json, key, DecodeString);
        (e.Success? <==> g.Success?) && (g.Success? ==> e.value == Text(g.value)) && (g.Failure? ==> e.error == g.error)
      case UrlKind => var g := Get(json, key, UrlDecoder(p));
        (e.Success? <==> g.Success?) && (g.Success? ==> e.value == Link(g.value)) && (g.Failure? ==> e.error == g.error)
      case FlagKind => var g := Get(json, key, DecodeBool);
        (e.Success? <==> g.Success?) && (g.Success? ==> e.value == Flag(g.value)) && (g.Failure? ==> e.error == g.error)
      case CountKind => var g := Get(json, key, DecodeInt);
        (e.Success? <==> g.Success?) && (g.Success? ==> e.value == Count(g.value)) && (g.Failure? ==> e.error == g.error)
      case DateKind => var g := Get(json, key, DateDecoder(p));
        (e.Success? <==> g.Success?) && (g.Success? ==> e.value == Stamp(g.value)) && (g.Failure? ==> e.error == g.error)
  }

  /** Every entry reads like the corresponding typed `get`. */
  lemma EntriesAreGets(p: Platform, json: Json, key: string, kind: Kind)
    ensures EntryIsGet(p, json, key, kind)
  {
  }

  /** The entries of `RepoSchema`, one by one. */
  lemma RepoSchemaEntries()
    ensures |RepoSchema| == 9
    ensures RepoSchema[0] == ("name", TextKind)
    ensures RepoSchema[1] == ("full_name", TextKind)
    ensures RepoSchema[2] == ("description", TextKind)
    ensures RepoSchema[3] == ("html_url", UrlKind)
    ensures RepoSchema[4] == ("fork", FlagKind)
    ensures RepoSchema[5] == ("stargazers_count", CountKind)
    ensures RepoSchema[6] == ("created_at", DateKind)
    ensures RepoSchema[7] == ("updated_at", DateKind)
    ensures RepoSchema[8] == ("pushed_at", DateKind)
  {
  }

  /**
   * A record is decoded exactly when all nine `get` calls succeed, and then
   * each field holds the value decoded from its own key.
   */
  lemma DecodeRepoSucceedsIff(p: Platform, json: Json)
    ensures DecodeRepo(p, json).Success? <==>
      Get(json, "name", DecodeString).Success? &&
      Get(json, "full_name", DecodeString).Success? &&
      Get(json, "description", DecodeString).Success? &&
      Get(json, "html_url", UrlDecoder(p)).Success? &&
      Get(json, "fork", DecodeBool).Success? &&
      Get(json, "stargazers_count", DecodeInt).Success? &&
      Get(json, "created_at", DateDecoder(p)).Success? &&
      Get(json, "updated_at", DateDecoder(p)).Success? &&
      Get(json, "pushed_at", DateDecoder(p)).Success?
    ensures DecodeRepo(p, json).Success? ==>
      var r := DecodeRepo(p, json).value;
      Get(json, "name", DecodeString) == Success(r.name) &&
      Get(json, "full_name", DecodeString) == Success(r.fullName) &&
      Get(json, "description", DecodeString) == Success(r.description) &&
      Get(json, "html_url", UrlDecoder(p)) == Success(r.url) &&
      Get(json, "fork", DecodeBool) == Success(r.isFork) &&
      Get(json, "stargazers_count", DecodeInt) == Success(r.stars) &&
      Get(json, "created_at", DateDecoder(p)) == Success(r.createdAt) &&
      Get(json, "updated_at", DateDecoder(p)) == Success(r.updatedAt) &&
      Get(json, "pushed_at", DateDecoder(p)) == Success(r.pushedAt)
  {
  }

  /** When `get(key)` is the first call to fail, its error is the record's error. */
  lemma DecodeRepoFailsAtFirst(p: Platform, json: Json)
    ensures (Get(json, "name", DecodeString).Failure?) ==>
      DecodeRepo(p, json) == Failure(Get(json, "name", DecodeString).error)
    ensures (Get(json, "name", DecodeString).Success? &&
             Get(json, "full_name", DecodeString).Failure?) ==>
      DecodeRepo(p, json) == Failure(Get(json, "full_name", DecodeString).error)
    ensures (Get(json, "name", DecodeString).Success? &&
             Get(json, "full_name", DecodeString).Success? &&
             Get(json, "description", DecodeString).Failure?) ==>
      DecodeRepo(p, json) == Failure(Get(json, "description", DecodeString).error)
    ensures (Get(json, "name", DecodeString).Success? &&
             Get(json, "full_name", DecodeString).Success? &&
             Get(json, "description", DecodeString).Success? &&
             Get(json, "html_url", UrlDecoder(p)).Failure?) ==>
      DecodeRepo(p, json) == Failure(Get(json, "html_url", UrlDecoder(p)).error)
    ensures (Get(json, "name", DecodeString).Success? &&
             Get(json, "full_name", DecodeString).Success? &&
             Get(json, "description", DecodeString).Success? &&
             Get(json, "html_url", UrlDecoder(p)).Success? &&
             Get(json, "fork", DecodeBool).Failure?) ==>
      DecodeRepo(p, json) == Failure(Get(json, "fork", DecodeBool).error)
    ensures (Get(json, "name", DecodeString).Success? &&
             Get(json, "full_name", DecodeString).Success? &&
             Get(json, "description", DecodeString).Success? &&
             Get(json, "html_url", UrlDecoder(p)).Success? &&
             Get(json, "fork", DecodeBool).Success? &&
             Get(json, "stargazers_count", DecodeInt).Failure?) ==>
      DecodeRepo(p, json) == Failure(Get(json, "stargazers_count", DecodeInt).error)
    ensures (Get(json, "name", DecodeString).Success? &&
             Get(json, "full_name", DecodeString).Success? &&
             Get(json, "description", DecodeString).Success? &&
             Get(json, "html_url", UrlDecoder(p)).Success? &&
             Get(json, "fork", DecodeBool).Success? &&
             Get(json, "stargazers_count", DecodeInt).Success? &&
             Get(json, "created_at", DateDecoder(p)).Failure?) ==>
      DecodeRepo(p, json) == Failure(Get(json, "created_at", DateDecoder(p)).error)
    ensures (Get(json, "name", DecodeString).Success? &&
             Get(json, "full_name", DecodeString).Success? &&
             Get(json, "description", DecodeString).Success? &&
             Get(json, "html_url", UrlDecoder(p)).Success? &&
             Get(json, "fork", DecodeBool).Success? &&
             Get(json, "stargazers_count", DecodeInt).Success? &&
             Get(json, "created_at", DateDecoder(p)).Success? &&
             Get(json, "updated_at", DateDecoder(p)).Failure?) ==>
      DecodeRepo(p, json) == Failure(Get(json, "updated_at", DateDecoder(p)).error)
    ensures (Get(json, "name", DecodeString).Success? &&
             Get(json, "full_name", DecodeString).Success? &&
             Get(json, "description", DecodeString).Success? &&
             Get(json, "html_url", UrlDecoder(p)).Success? &&
             Get(json, "fork", DecodeBool).Success? &&
             Get(json, "stargazers_count", DecodeInt).Success? &&
             Get(json, "created_at", DateDecoder(p)).Success? &&
             Get(json, "updated_at", DateDecoder(p)).Success? &&
             Get(json, "pushed_at", DateDecoder(p)).Failure?) ==>
      DecodeRepo(p, json) == Failure(Get(json, "pushed_at", DateDecoder(p)).error)
  {
  }

  /** When schema entry `k` is the first to fail, the record decode fails with its error. */
  lemma SchemaFailureAt(p: Platform, json: Json, k: int)
    requires FirstFailing(p, json, RepoSchema, k)
    ensures DecodeRepo(p, json) == Failure(DecodeEntry(p, json, RepoSchema[k]).error)
  {
    RepoSchemaEntries();
    DecodeRepoFailsAtFirst(p, json);
    EntriesAreGets(p, json, "name", TextKind);
    EntriesAreGets(p, json, "full_name", TextKind);
    EntriesAreGets(p, json, "description", TextKind);
    EntriesAreGets(p, json, "html_url", UrlKind);
    EntriesAreGets(p, json, "fork", FlagKind);
    EntriesAreGets(p, json, "stargazers_count", CountKind);
    EntriesAreGets(p, json, "created_at", DateKind);
    EntriesAreGets(p, json, "updated_at", DateKind);
    EntriesAreGets(p, json, "pushed_at", DateKind);
    if k == 0 {
    } else if k == 1 {
      assert DecodeEntry(p, json, RepoSchema[0]).Success?;
    } else if k == 2 {
      assert DecodeEntry(p, json, RepoSchema[0]).Success?;
      assert DecodeEntry(p, json, RepoSchema[1]).Success?;
    } else if k == 3 {
      assert DecodeEntry(p, json, RepoSchema[0]).Success?;
      assert DecodeEntry(p, json, RepoSchema[1]).Success?;
      assert DecodeEntry(p, json, RepoSchema[2]).Success?;
    } else if k == 4 {
      assert DecodeEntry(p, json, RepoSchema[0]).Success?;
      assert DecodeEntry(p, json, RepoSchema[1]).Success?;
      assert DecodeEntry(p, json, RepoSchema[2]).Success?;
      assert DecodeEntry(p, json, RepoSchema[3]).Success?;
    } else if k == 5 {
      assert DecodeEntry(p, json, RepoSchema[0]).Success?;
      assert DecodeEntry(p, json, RepoSchema[1]).Success?;
      assert DecodeEntry(p, json, RepoSchema[2]).Success?;
      assert DecodeEntry(p, json, RepoSchema[3]).Success?;
      assert DecodeEntry(p, json, RepoSchema[4]).Success?;
    } else if k == 6 {
      assert DecodeEntry(p, json, RepoSchema[0]).Success?;
      assert DecodeEntry(p, json, RepoSchema[1]).Success?;
      assert DecodeEntry(p, json, RepoSchema[2]).Success?;
      assert DecodeEntry(p, json, RepoSchema[3]).Success?;
      assert DecodeEntry(p, json, RepoSchema[4]).Success?;
      assert DecodeEntry(p, json, RepoSchema[5]).Success?;
    } else if k == 7 {
      assert DecodeEntry(p, json, RepoSchema[0]).Success?;
      assert DecodeEntry(p, json, RepoSchema[1]).Success?;
      assert DecodeEntry(p, json, RepoSchema[2]).Success?;
      assert DecodeEntry(p, json, RepoSchema[3]).Success?;
      assert DecodeEntry(p, json, RepoSchema[4]).Success?;
      assert DecodeEntry(p, json, RepoSchema[5]).Success?;
      assert DecodeEntry(p, json, RepoSchema[6]).Success?;
    } else if k == 8 {
      assert DecodeEntry(p, json, RepoSchema[0]).Success?;
      assert DecodeEntry(p, json, RepoSchema[1]).Success?;
      assert DecodeEntry(p, json, RepoSchema[2]).Success?;
      assert DecodeEntry(p, json, RepoSchema[3]).Success?;
      assert DecodeEntry(p, json, RepoSchema[4]).Success?;
      assert DecodeEntry(p, json, RepoSchema[5]).Success?;
      assert DecodeEntry(p, json, RepoSchema[6]).Success?;
      assert DecodeEntry(p, json, RepoSchema[7]).Success?;
    }
  }

  /** When every schema entry decodes, so does the record. */
  lemma SchemaSuccess(p: Platform, json: Json)
    requires forall i :: 0 <= i < 9 ==> DecodeEntry(p, json, RepoSchema[i]).Success?
    ensures DecodeRepo(p, json).Success?
  {
    RepoSchemaEntries();
    DecodeRepoSucceedsIff(p, json);
    EntriesAreGets(p, json, "name", TextKind);
    assert DecodeEntry(p, json, RepoSchema[0]).Success?;
    EntriesAreGets(p, json, "full_name", TextKind);
    assert DecodeEntry(p, json, RepoSchema[1]).Success?;
    EntriesAreGets(p, json, "description", TextKind);
    assert DecodeEntry(p, json, RepoSchema[2]).Success?;
    EntriesAreGets(p, json, "html_url", UrlKind);
    assert DecodeEntry(p, json, RepoSchema[3]).Success?;
    EntriesAreGets(p, json, "fork", FlagKind);
    assert DecodeEntry(p, json, RepoSchema[4]).Success?;
    EntriesAreGets(p, json, "stargazers_count", CountKind);
    assert DecodeEntry(p, json, RepoSchema[5]).Success?;
    EntriesAreGets(p, json, "created_at", DateKind);
    assert DecodeEntry(p, json, RepoSchema[6]).Success?;
    EntriesAreGets(p, json, "updated_at", DateKind);
    assert DecodeEntry(p, json, RepoSchema[7]).Success?;
    EntriesAreGets(p, json, "pushed_at", DateKind);
    assert DecodeEntry(p, json, RepoSchema[8]).Success?;
  }

  /** The straight-line decoder and the schema-driven one agree on every input. */
  lemma DecodeRepoIsSchemaDecode(p: Platform, json: Json)
    ensures DecodeRepo(p, json).Success? <==> DecodeEntries(p, json, RepoSchema).Success?
    ensures DecodeRepo(p, json).Success? ==>
      DecodeEntries(p, json, RepoSchema).value == Fields(DecodeRepo(p, json).value)
    ensures DecodeRepo(p, json).Failure? ==>
      DecodeEntries(p, json, RepoSchema).error == DecodeRepo(p, json).error
  {
    RepoSchemaEntries();
    DecodeEntriesSpec(p, json, RepoSchema);
    var t := DecodeEntries(p, json, RepoSchema);
    if t.Failure? {
      var k :| FirstFailing(p, json, RepoSchema, k) && DecodeEntry(p, json, RepoSchema[k]).error == t.error;
      SchemaFailureAt(p, json, k);
    } else {
      SchemaSuccess(p, json);
      DecodedFieldsAreRecord(p, json, t.value);
    }
  }

  lemma DecodedFieldsAreRecord(p: Platform, json: Json, values: seq<Field>)
    requires DecodeRepo(p, json).Success?
    requires |values| == 9
    requires forall i :: 0 <= i < 9 ==> DecodeEntry(p, json, RepoSchema[i]) == Success(values[i])
    ensures Fields(DecodeRepo(p, json).value) == values
  {
    RepoSchemaEntries();
    DecodeRepoSucceedsIff(p, json);
    var r := DecodeRepo(p, json).value;
    EntriesAreGets(p, json, "name", TextKind);
    assert values[0] == Text(r.name);
    EntriesAreGets(p, json, "full_name", TextKind);
    assert values[1] == Text(r.fullName);
    EntriesAreGets(p, json, "description", TextKind);
    assert values[2] == Text(r.description);
    EntriesAreGets(p, json, "html_url", UrlKind);
    assert values[3] == Link(r.url);
    EntriesAreGets(p, json, "fork", FlagKind);
    assert values[4] == Flag(r.isFork);
    EntriesAreGets(p, json, "stargazers_count", CountKind);
    assert values[5] == Count(r.stars);
    EntriesAreGets(p, json, "created_at", DateKind);
    assert values[6] == Stamp(r.createdAt);
    EntriesAreGets(p, json, "updated_at", DateKind);
    assert values[7] == Stamp(r.updatedAt);
    EntriesAreGets(p, json, "pushed_at", DateKind);
    assert values[8] == Stamp(r.pushedAt);
    NineEqual(values, Text(r.name), Text(r.fullName), Text(r.description), Link(r.url), Flag(r.isFork),
      Count(r.stars), Stamp(r.createdAt), Stamp(r.updatedAt), Stamp(r.pushedAt));
  }

  /** When each key decodes to the matching one of `values`, the record decodes with exactly those fields. */
  lemma DecodeRepoFromEntries(p: Platform, json: Json, values: seq<Field>)
    requires |values| == 9
    requires forall k :: 0 <= k < 9 ==> DecodeEntry(p, json, RepoSchema[k]) == Success(values[k])
    ensures DecodeRepo(p, json).Success? && Fields(DecodeRepo(p, json).value) == values
  {
    RepoSchemaEntries();
    SchemaSuccess(p, json);
    DecodedFieldsAreRecord(p, json, values);
  }

  /** A sequence of nine fields is the display of its elements. */
  lemma NineEqual(v: seq<Field>, w0: Field, w1: Field, w2: Field, w3: Field, w4: Field,
                  w5: Field, w6: Field, w7: Field, w8: Field)
    requires |v| == 9
    requires v[0] == w0 && v[1] == w1 && v[2] == w2 && v[3] == w3 && v[4] == w4
    requires v[5] == w5 && v[6] == w6 && v[7] == w7 && v[8] == w8
    ensures v == [w0, w1, w2, w3, w4, w5, w6, w7, w8]
  {
    var w := [w0, w1, w2, w3, w4, w5, w6, w7, w8];
    forall i | 0 <= i < 9 ensures v[i] == w[i] {
      assert i == 0 || i == 1 || i == 2 || i == 3 || i == 4 || i == 5 || i == 6 || i == 7 || i == 8;
    }
  }

  // ---------------------------------------------------------------------------
  // Properties of the record decoder

  /**
   * The record fails with error `e` exactly when some key, read in
   * declaration order, is the first whose `get` fails, and fails with `e`.
   */
  lemma DecodeRepoFirstFailure(p: Platform, json: Json, e: DecodeError)
    ensures DecodeRepo(p, json) == Failure(e) <==>
      exists k :: FirstFailing(p, json, RepoSchema, k) && DecodeEntry(p, json, RepoSchema[k]).error == e
  {
    DecodeRepoIsSchemaDecode(p, json);
    DecodeEntriesSpec(p, json, RepoSchema);
    if k :| FirstFailing(p, json, RepoSchema, k) && DecodeEntry(p, json, RepoSchema[k]).error == e {
      SchemaFailureAt(p, json, k);
    }
  }

  /**
   * A record whose `k`-th key is absent, while every earlier key decodes,
   * fails with `KeyNotFound` naming that key.
   */
  lemma DecodeRepoMissingKey(p: Platform, json: Json, k: int)
    requires 0 <= k < |RepoSchema|
    requires !HasKey(json, RepoSchema[k].0)
    requires forall j :: 0 <= j < k ==> DecodeEntry(p, json, RepoSchema[j]).Success?
    ensures DecodeRepo(p, json) == Failure(KeyNotFound(RepoSchema[k].0))
  {
    assert FirstFailing(p, json, RepoSchema, k);
    SchemaFailureAt(p, json, k);
  }

  /** The nine keys are pairwise different. */
  lemma RepoKeysDistinct(i: int, j: int)
    requires 0 <= i < 9 && 0 <= j < 9 && i != j
    ensures RepoSchema[i].0 != RepoSchema[j].0
  {
    RepoSchemaEntries();
    assert i == 0 || i == 1 || i == 2 || i == 3 || i == 4 || i == 5 || i == 6 || i == 7 || i == 8;
    assert j == 0 || j == 1 || j == 2 || j == 3 || j == 4 || j == 5 || j == 6 || j == 7 || j == 8;
  }

  /** An object holding `values` under the nine keys, in declaration order. */
  function SchemaObject(values: seq<Json>): (json: Json)
    requires |values| == 9
    ensures json.Object? && |json.members| == 9
    ensures forall k :: 0 <= k < 9 ==> json.members[k] == (RepoSchema[k].0, values[k])
  {
    RepoSchemaEntries();
    var json := Object([
      ("name", values[0]),
      ("full_name", values[1]),
      ("description", values[2]),
      ("html_url", values[3]),
      ("fork", values[4]),
      ("stargazers_count", values[5]),
      ("created_at", values[6]),
      ("updated_at", values[7]),
      ("pushed_at", values[8])]);
    assert forall k :: 0 <= k < 9 ==> json.members[k] == (RepoSchema[k].0, values[k]) by {
      forall k | 0 <= k < 9 ensures json.members[k] == (RepoSchema[k].0, values[k]) {
        assert k == 0 || k == 1 || k == 2 || k == 3 || k == 4 || k == 5 || k == 6 || k == 7 || k == 8;
      }
    }
    json
  }

  /** In such an object every key reads the value stored under it. */
  lemma SchemaObjectEntries(p: Platform, values: seq<Json>, k: int)
    requires |values| == 9 && 0 <= k < 9
    ensures DecodeEntry(p, SchemaObject(values), RepoSchema[k]) == DecodeAs(p, RepoSchema[k].1, values[k])
  {
    var json, key := SchemaObject(values), RepoSchema[k].0;
    forall j | 0 <= j < k ensures json.members[j].0 != key {
      RepoKeysDistinct(j, k);
    }
    assert FirstWithKey(json.members, key, k);
    assert HasKey(json, key);
    var i :| FirstWithKey(json.members, key, i) &&
      DecodeEntry(p, json, RepoSchema[k]) == DecodeAs(p, RepoSchema[k].1, json.members[i].1);
    FirstWithKeyUnique(json.members, key, i, k);
  }

  /** The record is determined by its fields. */
  lemma FieldsInjective(a: Repo, b: Repo)
    requires Fields(a) == Fields(b)
    ensures a == b
  {
    assert Fields(a)[0] == Fields(b)[0] && Fields(a)[1] == Fields(b)[1] && Fields(a)[2] == Fields(b)[2];
    assert Fields(a)[3] == Fields(b)[3] && Fields(a)[4] == Fields(b)[4] && Fields(a)[5] == Fields(b)[5];
    assert Fields(a)[6] == Fields(b)[6] && Fields(a)[7] == Fields(b)[7] && Fields(a)[8] == Fields(b)[8];
  }

  /**
   * A JSON object for `r`, in the shape the record is read from: the URL
   * written as `urlText` and each date as whole seconds since the epoch.
   */
  function RepoJson(r: Repo, urlText: string, created: int64, updated: int64, pushed: int64): Json {
    SchemaObject([String(r.name), String(r.fullName), String(r.description), String(urlText), Bool(r.isFork),
                  Integer(r.stars), Integer(created), Integer(updated), Integer(pushed)])
  }

  /** Each key of `RepoJson(r, ...)` reads back the matching field of `r`. */
  lemma RepoJsonEntry(p: Platform, r: Repo, urlText: string, created: int64, updated: int64, pushed: int64, k: int)
    requires p.parseUrl(urlText) == Some(r.url)
    requires WithinSignificand(created as int) && r.createdAt == Date(created as real)
    requires WithinSignificand(updated as int) && r.updatedAt == Date(updated as real)
    requires WithinSignificand(pushed as int) && r.pushedAt == Date(pushed as real)
    requires 0 <= k < 9
    ensures DecodeEntry(p, RepoJson(r, urlText, created, updated, pushed), RepoSchema[k]) == Success(Fields(r)[k])
  {
    var values := [String(r.name), String(r.fullName), String(r.description), String(urlText), Bool(r.isFork),
                   Integer(r.stars), Integer(created), Integer(updated), Integer(pushed)];
    RepoSchemaEntries();
    SchemaObjectEntries(p, values, k);
    if k == 6 {
      DecodeDateIntegerExact(p, created);
    } else if k == 7 {
      DecodeDateIntegerExact(p, updated);
    } else if k == 8 {
      DecodeDateIntegerExact(p, pushed);
    } else {
      assert k == 0 || k == 1 || k == 2 || k == 3 || k == 4 || k == 5;
    }
  }

  /**
   * Round trip: when the URL text parses to `r.url` and each date is a whole
   * number of seconds that binary64 holds exactly, decoding `RepoJson` gives back `r`.
   */
  lemma RepoRoundTrip(p: Platform, r: Repo, urlText: string, created: int64, updated: int64, pushed: int64)
    requires p.parseUrl(urlText) == Some(r.url)
    requires WithinSignificand(created as int) && r.createdAt == Date(created as real)
    requires WithinSignificand(updated as int) && r.updatedAt == Date(updated as real)
    requires WithinSignificand(pushed as int) && r.pushedAt == Date(pushed as real)
    ensures DecodeRepo(p, RepoJson(r, urlText, created, updated, pushed)) == Success(r)
  {
    var json := RepoJson(r, urlText, created, updated, pushed);
    forall k | 0 <= k < 9 ensures DecodeEntry(p, json, RepoSchema[k]) == Success(Fields(r)[k]) {
      RepoJsonEntry(p, r, urlText, created, updated, pushed, k);
    }
    DecodeRepoFromEntries(p, json, Fields(r));
    FieldsInjective(DecodeRepo(p, json).value, r);
  }
}
