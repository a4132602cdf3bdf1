/**
 * The JSON representation of src/json_buffer.c: blocks, events, judgments and their parts are put
 * into JSON objects and read back.  json-c, libuuid, base64 and the address conversions of the C
 * library are given by `Library`.
 */
module Json {
  import opened Common
  import opened Decimal

  /** Field names. */
  datatype Key =
    | Name | Type | StringValue | BinValue | JsonValue | UuidId
    | HashField | Size | DataType | Value
    | Id | ParentId | Parent | Metadata | BlockField
    | Nugget | Seconds | NanoSeconds
    | NuggetId | EventIdField | BlockIdField | Priority | Gid | Sid
    | SetSfFlags | SetEntFlags | UnsetSfFlags | UnsetEntFlags | Message
    | Other(text: string)

  datatype Json =
    | Null
    | Bool(b: bool)
    | Int(n: int)
    | Double(digits: string)   // a floating-point number, as its text
    | Str(s: string)
    | Arr(items: seq<Json>)
    | Obj(fields: map<Key, Json>)

  type Fields = map<Key, Json>

  type Uuid = u: seq<Byte> | |u| == 16 witness seq(16, _ => 0)

  /** The libraries the code calls, and the conversions of numbers to text and back. */
  datatype Library = Library(
    uuidText: Uuid -> string,
    uuidParse: string -> Option<Uuid>,
    base64: seq<Byte> -> string,
    unbase64: string -> Option<seq<Byte>>,
    ipText: seq<Byte> -> string,
    ip4Parse: string -> Option<seq<Byte>>,
    ip6Parse: string -> Option<seq<Byte>>,
    jsonText: Json -> string,
    jsonParse: string -> Option<Json>,
    text: nat -> string,
    parse: string -> Option<nat>,
    scan: (string, nat) -> Option<nat>,
    types: NamedTypes)

  /** The UUIDs the type list gives for the NTLV type names the code asks for; a name may be missing. */
  datatype NamedTypes = NamedTypes(
    text: Option<Uuid>, json: Option<Uuid>, port: Option<Uuid>,
    proto: Option<Uuid>, ip4: Option<Uuid>, ip6: Option<Uuid>)

  /** Characters that are bytes, and no NUL among them. */
  predicate Plain(s: string) { forall i :: 0 <= i < |s| ==> 0 < s[i] as int < 256 }

  predicate Container(j: Json) { j.Obj? || j.Arr? }

  /**
   * Each library conversion is undone by its opposite.  Printing JSON that was parsed gives a C
   * string that parses to the same value; it need not be the text that was parsed.
   */
  ghost predicate LawfulLibraries(lib: Library) {
    && (forall u: Uuid {:trigger lib.uuidText(u)} :: lib.uuidParse(lib.uuidText(u)) == Some(u))
    && (forall d {:trigger lib.base64(d)} :: lib.unbase64(lib.base64(d)) == Some(d))
    && (forall d {:trigger lib.ipText(d)} :: |d| == 4 ==> lib.ip4Parse(lib.ipText(d)) == Some(d))
    && (forall d {:trigger lib.ipText(d)} :: |d| == 16 ==> lib.ip6Parse(lib.ipText(d)) == Some(d))
    && (forall t {:trigger lib.jsonParse(t)} ::
          var j := lib.jsonParse(t);
          j.Some? && Container(j.value) ==>
            Plain(lib.jsonText(j.value)) && lib.jsonParse(lib.jsonText(j.value)) == j)
  }

  /** And numbers survive their conversion to text, within the range asked for. */
  ghost predicate Lawful(lib: Library) {
    && LawfulLibraries(lib)
    && (forall n: nat {:trigger lib.text(n)} :: n <= UINT64_MAX ==> lib.parse(lib.text(n)) == Some(n))
    && (forall n: nat, max: nat :: n <= max <= UINT64_MAX ==> lib.scan(lib.text(n), max) == Some(n))
  }

  /** The conversions of numbers that the code uses obey their laws. */
  lemma DecimalLawful(lib: Library)
    requires LawfulLibraries(lib)
    requires forall n :: lib.text(n) == Print(n)
    requires forall s :: lib.parse(s) == ParseUnsigned(s, UINT64_MAX)
    requires forall s, max :: lib.scan(s, max) == ScanUnsigned(s, max)
    ensures Lawful(lib)
  {
    forall n: nat | n <= UINT64_MAX ensures lib.parse(lib.text(n)) == Some(n) {
      ParsePrinted(n, UINT64_MAX);
    }
    forall n: nat, max: nat | n <= max <= UINT64_MAX ensures lib.scan(lib.text(n), max) == Some(n) {
      ScanPrintedNumber(n, max);
    }
  }

  predicate Apart(a: Option<Uuid>, others: set<Option<Uuid>>) { a.None? || a !in others }

  /** No two type names have the same UUID. */
  predicate DistinctTypes(t: NamedTypes) {
    && Apart(t.text, {t.json, t.port, t.proto, t.ip4, t.ip6})
    && Apart(t.json, {t.port, t.proto, t.ip4, t.ip6})
    && Apart(t.port, {t.proto, t.ip4, t.ip6})
    && Apart(t.proto, {t.ip4, t.ip6})
    && Apart(t.ip4, {t.ip6})
  }

  // ---- fields ----

  /** A field that is absent and one that is null are the same to the reader. */
  function Get(f: Fields, k: Key): (r: Option<Json>)
    ensures r.Some? ==> k in f && f[k] == r.value
  {
    if k in f && !f[k].Null? then Some(f[k]) else None
  }

  function GetObj(f: Fields, k: Key): (r: Option<Fields>)
    ensures r.Some? ==> k in f && f[k] == Obj(r.value)
  {
    var j :- Get(f, k);
    if j.Obj? then Some(j.fields) else None
  }

  function GetString(f: Fields, k: Key): Option<string> {
    var j :- Get(f, k);
    if j.Str? then Some(j.s) else None
  }

  /** A number in a text, up to a limit. */
  function ParseWithin(lib: Library, s: string, max: nat): (r: Option<nat>)
    ensures r.Some? ==> r.value <= max
  {
    var n :- lib.parse(s);
    if n > max then None else Some(n)
  }

  /** The number in the text of a JSON integer; the text of a negative one starts with its sign. */
  function IntValue(lib: Library, n: int, max: nat): (r: Option<nat>)
    ensures r.Some? ==> r.value <= max
  {
    if n < 0 then None else ParseWithin(lib, lib.text(n), max)
  }

  /** 8- and 16-bit numbers must be JSON integers. */
  function GetNarrow(lib: Library, f: Fields, k: Key, max: nat): (r: Option<nat>)
    ensures r.Some? ==> r.value <= max
  {
    var j :- Get(f, k);
    if j.Int? then IntValue(lib, j.n, max) else None
  }

  /** 32- and 64-bit numbers may be JSON integers or strings. */
  function GetWide(lib: Library, f: Fields, k: Key, max: nat): (r: Option<nat>)
    ensures r.Some? ==> r.value <= max
  {
    var j :- Get(f, k);
    var n :- match j case Str(s) => ParseWithin(lib, s, UINT64_MAX)
                     case Int(n) => IntValue(lib, n, UINT64_MAX)
                     case _ => None;
    if n > max then None else Some(n)
  }

  function PutUuid(lib: Library, f: Fields, k: Key, u: Uuid): Fields {
    f[k := Obj(map[UuidId := Str(lib.uuidText(u))])]
  }

  function GetUuid(lib: Library, f: Fields, k: Key): Option<Uuid> {
    var o :- GetObj(f, k);
    var s :- GetString(o, UuidId);
    lib.uuidParse(s)
  }

  /** What the readers of numbers accept: 32- and 64-bit ones also the text of a number. */
  lemma NumbersRead(lib: Library, f: Fields, k: Key, max: nat)
    requires k in f && max <= UINT64_MAX
    ensures f[k].Str? ==> GetNarrow(lib, f, k, max) == None
    ensures f[k].Str? && lib.parse(f[k].s).Some? ==>
              GetWide(lib, f, k, max) == if lib.parse(f[k].s).value <= max then lib.parse(f[k].s) else None
    ensures f[k].Int? && f[k].n < 0 ==> GetNarrow(lib, f, k, max) == None && GetWide(lib, f, k, max) == None
  {}

  lemma UuidRoundTrip(lib: Library, f: Fields, k: Key, u: Uuid)
    requires Lawful(lib) && k in f && f[k] == Obj(map[UuidId := Str(lib.uuidText(u))])
    ensures GetUuid(lib, f, k) == Some(u)
  {
    assert lib.uuidParse(lib.uuidText(u)) == Some(u);
  }

  lemma NarrowRoundTrip(lib: Library, f: Fields, k: Key, n: nat, max: nat)
    requires Lawful(lib) && n <= max <= UINT64_MAX && k in f && f[k] == Int(n)
    ensures GetNarrow(lib, f, k, max) == Some(n)
  {
    assert lib.parse(lib.text(n)) == Some(n);
  }

  lemma WideRoundTrip(lib: Library, f: Fields, k: Key, n: nat, max: nat)
    requires Lawful(lib) && n <= max <= UINT64_MAX && k in f && f[k] == Int(n)
    ensures GetWide(lib, f, k, max) == Some(n)
  {
    assert lib.parse(lib.text(n)) == Some(n);
  }

  // ---- bytes and text ----

  function Chars(d: seq<Byte>): (s: string)
    ensures |s| == |d| && forall i :: 0 <= i < |d| ==> s[i] as int == d[i] as int
  {
    seq(|d|, i requires 0 <= i < |d| => d[i] as char)
  }

  function Bytes(s: string): (d: seq<Byte>)
    ensures |d| == |s| && forall i :: 0 <= i < |s| ==> d[i] as int == s[i] as int % 256
  {
    seq(|s|, i requires 0 <= i < |s| => (s[i] as int % 256) as Byte)
  }

  lemma BytesChars(d: seq<Byte>)
    ensures Bytes(Chars(d)) == d
  {}

  /** The C string that starts a buffer: its bytes before the first NUL. */
  function UpToNul(d: seq<Byte>): (r: seq<Byte>)
    ensures |r| <= |d| && r == d[..|r|] && (|r| < |d| ==> d[|r|] == 0) && 0 !in r
  {
    if d == [] || d[0] == 0 then []
    else
      assert d == [d[0]] + d[1..];
      [d[0]] + UpToNul(d[1..])
  }

  lemma UpToNulTwice(d: seq<Byte>)
    ensures UpToNul(UpToNul(d)) == UpToNul(d)
  {
    var r := UpToNul(d);
    assert |UpToNul(r)| == |r| ==> UpToNul(r) == r;
  }

  /** A buffer that is one C string: its only NUL is its last byte. */
  predicate IsCString(d: seq<Byte>) { d != [] && UpToNul(d) == d[..|d| - 1] && d[|d| - 1] == 0 }

  lemma CStringIs(d: seq<Byte>)
    requires d != [] && d[|d| - 1] == 0
    ensures UpToNul(d) + [0] == d <==> IsCString(d)
  {
    assert d == d[..|d| - 1] + [d[|d| - 1]];
    if UpToNul(d) + [0] == d {
      assert |UpToNul(d)| == |d| - 1;
    }
  }

  /** A plain text closed by a NUL is read back whole. */
  lemma PlainIsCString(s: string)
    requires Plain(s)
    ensures UpToNul(Bytes(s) + [0]) == Bytes(s) && Chars(Bytes(s)) == s
  {
    var d, r := Bytes(s) + [0], UpToNul(Bytes(s) + [0]);
    assert d[|s|] == 0 && forall i :: 0 <= i < |s| ==> d[i] != 0;
    assert |r| == |s|;
    forall i | 0 <= i < |s| ensures Chars(Bytes(s))[i] == s[i] {
      assert Chars(Bytes(s))[i] as int == s[i] as int;
    }
  }

  // ---- the laws can be met ----

  function Repeated(b: Byte): Uuid { seq(16, _ => b) }

  /** A library that writes bytes as they are and knows a single JSON value. */
  function PlainLibrary(): Library {
    Library(u => Chars(u), s => if |s| == 16 then Some(Bytes(s)) else None,
            d => Chars(d), s => Some(Bytes(s)),
            d => Chars(d), s => Some(Bytes(s)), s => Some(Bytes(s)),
            _ => "{}", s => if s == "{}" then Some(Obj(map[])) else None,
            Print, s => ParseUnsigned(s, UINT64_MAX), ScanUnsigned,
            NamedTypes(Some(Repeated(1)), Some(Repeated(2)), Some(Repeated(3)),
                       Some(Repeated(4)), Some(Repeated(5)), Some(Repeated(6))))
  }

  lemma SomeLibraryLawful()
    ensures exists lib :: Lawful(lib) && DistinctTypes(lib.types)
  {
    var lib := PlainLibrary();
    forall d ensures Bytes(Chars(d)) == d { BytesChars(d); }
    DecimalLawful(lib);
    assert forall a: Byte, b: Byte :: a != b ==> Repeated(a)[0] != Repeated(b)[0];
    assert DistinctTypes(lib.types);
  }
}
