/** Metadata items (name, type, length, value) and lists of them, in src/json_buffer.c. */
module Ntlv {
  import opened Common
  import opened Decimal
  import opened Json

  datatype Item = Item(name: Uuid, kind: Uuid, data: seq<Byte>)

  predicate Is(t: Option<Uuid>, kind: Uuid) { t == Some(kind) }

  /** A 16-bit number as its two bytes lie in memory. */
  function Word(d: seq<Byte>): nat
    requires |d| == 2
  {
    d[0] as nat + 256 * d[1] as nat
  }

  function Unword(n: nat): seq<Byte>
    requires n <= UINT16_MAX
  {
    [(n % 256) as Byte, (n / 256) as Byte]
  }

  lemma WordRoundTrip(d: seq<Byte>)
    requires |d| == 2
    ensures Word(d) <= UINT16_MAX && Unword(Word(d)) == d
  {}

  predicate Terminated(d: seq<Byte>) { d != [] && d[|d| - 1] == 0 }

  /** Which field holds a value, and the value: JsonBuffer_Put_NTLVItem. */
  function PutValue(lib: Library, x: Item): Option<(Key, Json)> {
    var t, d := lib.types, x.data;
    if Is(t.text, x.kind) && !Terminated(d) then None
    else if Is(t.json, x.kind) && !Terminated(d) then None
    else if Is(t.port, x.kind) then
      if |d| != 2 then None else Some((StringValue, Str(lib.text(Word(d)))))
    else if Is(t.proto, x.kind) then
      if |d| != 1 then None else Some((StringValue, Str(lib.text(d[0] as nat))))
    else if Is(t.ip4, x.kind) then
      if |d| != 4 then None else Some((StringValue, Str(lib.ipText(d))))
    else if Is(t.ip6, x.kind) then
      if |d| != 16 then None else Some((StringValue, Str(lib.ipText(d))))
    else if Is(t.json, x.kind) then
      var j :- lib.jsonParse(Chars(UpToNul(d)));
      if Container(j) then Some((JsonValue, j)) else None
    else if Is(t.text, x.kind) then Some((StringValue, Str(Chars(UpToNul(d)))))
    else if |d| > INT32_MAX then None   // the encoder takes its length as an int
    else Some((BinValue, Str(lib.base64(d))))
  }

  function PutItem(lib: Library, x: Item): Option<Json> {
    var v :- PutValue(lib, x);
    Some(Obj(PutUuid(lib, PutUuid(lib, map[], Name, x.name), Type, x.kind)[v.0 := v.1]))
  }

  /** The bytes a value stands for, by the field that holds it and the type. */
  function GetValue(lib: Library, f: Fields, kind: Uuid): Option<seq<Byte>> {
    var t := lib.types;
    var hasString, hasBin, hasJson := StringValue in f, BinValue in f, JsonValue in f;
    if (if hasString then 1 else 0) + (if hasBin then 1 else 0) + (if hasJson then 1 else 0) != 1 then None
    else if hasString then
      var s :- GetString(f, StringValue);
      if Is(t.text, kind) then Some(UpToNul(Bytes(s)) + [0])
      else if Is(t.json, kind) then None
      else if Is(t.port, kind) then
        var n :- lib.scan(s, UINT16_MAX);
        if n <= UINT16_MAX then Some(Unword(n)) else None
      else if Is(t.proto, kind) then
        var n :- lib.scan(s, UINT8_MAX);
        if n <= UINT8_MAX then Some([n as Byte]) else None
      else if Is(t.ip4, kind) then lib.ip4Parse(s)
      else if Is(t.ip6, kind) then lib.ip6Parse(s)
      else None
    else if hasJson then
      var j :- Get(f, JsonValue);
      if !Container(j) || !Is(t.json, kind) then None
      else Some(Bytes(lib.jsonText(j)) + [0])
    else
      var s :- GetString(f, BinValue);
      var d :- lib.unbase64(s);
      if Is(t.text, kind) || Is(t.port, kind) || Is(t.proto, kind) || Is(t.ip4, kind) || Is(t.ip6, kind)
         || Is(t.json, kind) then None
      else Some(d)
  }

  /** JsonBuffer_Get_NTLVItem; a list refuses an item without data. */
  function GetItem(lib: Library, j: Json): Option<Item> {
    if !j.Obj? then None
    else
      var name :- GetUuid(lib, j.fields, Name);
      var kind :- GetUuid(lib, j.fields, Type);
      var d :- GetValue(lib, j.fields, kind);
      if d == [] then None else Some(Item(name, kind, d))
  }

  /** Which fields an item is put under: its name, its type, and one for the value. */
  lemma ItemFields(lib: Library, x: Item)
    requires PutItem(lib, x).Some? && DistinctTypes(lib.types)
    ensures PutItem(lib, x).value.Obj?
    ensures var f, t := PutItem(lib, x).value.fields, lib.types;
            && f[Name] == Obj(map[UuidId := Str(lib.uuidText(x.name))])
            && f[Type] == Obj(map[UuidId := Str(lib.uuidText(x.kind))])
            && f.Keys == {Name, Type,
                          if Is(t.json, x.kind) then JsonValue
                          else if Some(x.kind) in {t.text, t.port, t.proto, t.ip4, t.ip6} then StringValue
                          else BinValue}
            && (Is(t.text, x.kind) ==> f[StringValue] == Str(Chars(UpToNul(x.data))))
            && (Is(t.port, x.kind) ==> |x.data| == 2
                                       && f[StringValue] == Str(lib.text(x.data[0] as nat + 256 * x.data[1] as nat)))
            && (Is(t.proto, x.kind) ==> |x.data| == 1 && f[StringValue] == Str(lib.text(x.data[0] as nat)))
            && (Is(t.ip4, x.kind) || Is(t.ip6, x.kind) ==> f[StringValue] == Str(lib.ipText(x.data)))
            && (Is(t.json, x.kind) ==> Some(f[JsonValue]) == lib.jsonParse(Chars(UpToNul(x.data))))
            && (BinValue in f ==> f[BinValue] == Str(lib.base64(x.data)))
  {}

  // ---- when an item survives ----

  /** Items that can be put at all. */
  predicate Puttable(lib: Library, x: Item) {
    var t, d := lib.types, x.data;
    if Is(t.port, x.kind) then |d| == 2
    else if Is(t.proto, x.kind) then |d| == 1
    else if Is(t.ip4, x.kind) then |d| == 4
    else if Is(t.ip6, x.kind) then |d| == 16
    else if Is(t.json, x.kind) then
      Terminated(d) && var j := lib.jsonParse(Chars(UpToNul(d))); j.Some? && Container(j.value)
    else if Is(t.text, x.kind) then Terminated(d)
    else |d| <= INT32_MAX
  }

  /** A text the library prints for some JSON it parsed, closed by a NUL. */
  ghost predicate Canonical(lib: Library, d: seq<Byte>) {
    exists t ::
      var j := lib.jsonParse(t);
      j.Some? && Container(j.value) && d == Bytes(lib.jsonText(j.value)) + [0]
  }

  /**
   * Items that come back as they were: a text must be a single C string, a JSON text must already
   * be in the plain form the library prints, and binary data must not be empty.
   */
  ghost predicate Faithful(lib: Library, x: Item) {
    var t, d := lib.types, x.data;
    && Puttable(lib, x)
    && (Is(t.text, x.kind) ==> IsCString(d))
    && (Is(t.json, x.kind) ==> Canonical(lib, d))
    && d != []
  }

  /**
   * What a puttable item comes back as: a text is cut at its first NUL, a JSON text is printed
   * afresh, and an item without data is refused.
   */
  function ReadBack(lib: Library, x: Item): Option<Item>
    requires Puttable(lib, x) && DistinctTypes(lib.types)
  {
    var t, d := lib.types, UpToNul(x.data);
    if Is(t.text, x.kind) then Some(x.(data := d + [0]))
    else if Is(t.json, x.kind) then Some(x.(data := Bytes(lib.jsonText(lib.jsonParse(Chars(d)).value)) + [0]))
    else if x.data == [] then None
    else Some(x)
  }

  /** Printing a parsed text afresh changes nothing exactly when it is in printed form. */
  lemma PrintedAfresh(lib: Library, d: seq<Byte>)
    requires Lawful(lib)
    requires var j := lib.jsonParse(Chars(UpToNul(d))); j.Some? && Container(j.value)
    ensures Bytes(lib.jsonText(lib.jsonParse(Chars(UpToNul(d))).value)) + [0] == d <==> Canonical(lib, d)
  {
    if Canonical(lib, d) {
      var t :| var j := lib.jsonParse(t);
               j.Some? && Container(j.value) && d == Bytes(lib.jsonText(j.value)) + [0];
      PlainIsCString(lib.jsonText(lib.jsonParse(t).value));
    }
  }

  /** A puttable item comes back unchanged exactly when it is faithful. */
  lemma FaithfulExactly(lib: Library, x: Item)
    requires Lawful(lib) && DistinctTypes(lib.types) && Puttable(lib, x)
    ensures ReadBack(lib, x) == Some(x) <==> Faithful(lib, x)
  {
    if Is(lib.types.text, x.kind) {
      CStringIs(x.data);
    } else if Is(lib.types.json, x.kind) {
      PrintedAfresh(lib, x.data);
    }
  }

  /** Fields in which a value, and no other, is stored. */
  ghost predicate Stores(f: Fields, k: Key, v: Json) {
    && (k == StringValue || k == BinValue || k == JsonValue)
    && k in f && f[k] == v
    && (forall o <- {StringValue, BinValue, JsonValue} :: o in f ==> o == k)
  }

  lemma NumberRoundTrip(lib: Library, x: Item, f: Fields)
    requires Lawful(lib) && DistinctTypes(lib.types) && Puttable(lib, x)
    requires Is(lib.types.port, x.kind) || Is(lib.types.proto, x.kind)
    requires PutValue(lib, x).Some? && Stores(f, PutValue(lib, x).value.0, PutValue(lib, x).value.1)
    ensures GetValue(lib, f, x.kind) == Some(x.data)
  {
    var d := x.data;
    if Is(lib.types.port, x.kind) {
      WordRoundTrip(d);
      assert lib.scan(lib.text(Word(d)), UINT16_MAX) == Some(Word(d));
    } else {
      assert lib.scan(lib.text(d[0] as nat), UINT8_MAX) == Some(d[0] as nat);
      assert d == [d[0]];
    }
  }

  lemma AddressRoundTrip(lib: Library, x: Item, f: Fields)
    requires Lawful(lib) && DistinctTypes(lib.types) && Puttable(lib, x)
    requires Is(lib.types.ip4, x.kind) || Is(lib.types.ip6, x.kind)
    requires PutValue(lib, x).Some? && Stores(f, PutValue(lib, x).value.0, PutValue(lib, x).value.1)
    ensures GetValue(lib, f, x.kind) == Some(x.data)
  {
    assert |x.data| == 4 ==> lib.ip4Parse(lib.ipText(x.data)) == Some(x.data);
    assert |x.data| == 16 ==> lib.ip6Parse(lib.ipText(x.data)) == Some(x.data);
  }

  lemma TextRoundTrip(lib: Library, x: Item, f: Fields)
    requires DistinctTypes(lib.types) && Puttable(lib, x) && (Is(lib.types.text, x.kind) || Is(lib.types.json, x.kind))
    requires PutValue(lib, x).Some? && Stores(f, PutValue(lib, x).value.0, PutValue(lib, x).value.1)
    ensures GetValue(lib, f, x.kind) == Some(ReadBack(lib, x).value.data)
  {
    BytesChars(UpToNul(x.data));
    UpToNulTwice(x.data);
  }

  lemma BinaryRoundTrip(lib: Library, x: Item, f: Fields)
    requires Lawful(lib)
    requires var t := lib.types;
             !Is(t.text, x.kind) && !Is(t.json, x.kind) && !Is(t.port, x.kind) && !Is(t.proto, x.kind)
             && !Is(t.ip4, x.kind) && !Is(t.ip6, x.kind)
    requires PutValue(lib, x).Some? && Stores(f, PutValue(lib, x).value.0, PutValue(lib, x).value.1)
    ensures GetValue(lib, f, x.kind) == Some(x.data)
  {
    assert lib.unbase64(lib.base64(x.data)) == Some(x.data);
  }

  /** What every item that can be put is read back as. */
  lemma ItemReadsBack(lib: Library, x: Item)
    requires Lawful(lib) && DistinctTypes(lib.types) && Puttable(lib, x)
    ensures PutItem(lib, x).Some? && GetItem(lib, PutItem(lib, x).value) == ReadBack(lib, x)
  {
    var v, f, t := PutValue(lib, x).value, PutItem(lib, x).value.fields, lib.types;
    assert Stores(f, v.0, v.1);
    UuidRoundTrip(lib, f, Name, x.name);
    UuidRoundTrip(lib, f, Type, x.kind);
    if Is(t.port, x.kind) || Is(t.proto, x.kind) {
      NumberRoundTrip(lib, x, f);
    } else if Is(t.ip4, x.kind) || Is(t.ip6, x.kind) {
      AddressRoundTrip(lib, x, f);
    } else if Is(t.text, x.kind) || Is(t.json, x.kind) {
      TextRoundTrip(lib, x, f);
    } else {
      BinaryRoundTrip(lib, x, f);
    }
  }

  /** What is put can be put exactly for puttable items, and comes back the same exactly for faithful ones. */
  lemma ItemRoundTrip(lib: Library, x: Item)
    requires Lawful(lib) && DistinctTypes(lib.types)
    ensures PutItem(lib, x).Some? <==> Puttable(lib, x)
    ensures Puttable(lib, x) ==> (GetItem(lib, PutItem(lib, x).value) == Some(x) <==> Faithful(lib, x))
  {
    if Puttable(lib, x) {
      ItemReadsBack(lib, x);
      FaithfulExactly(lib, x);
    }
  }

  /** A text with a NUL inside is put, and comes back shorter. */
  lemma TextCutShort(lib: Library, name: Uuid, kind: Uuid)
    requires Lawful(lib) && DistinctTypes(lib.types) && Is(lib.types.text, kind)
    ensures var x := Item(name, kind, [65, 0, 66, 0]);
            && Puttable(lib, x) && !Faithful(lib, x)
            && GetItem(lib, PutItem(lib, x).value) == Some(Item(name, kind, [65, 0]))
  {
    var d: seq<Byte> := [65, 0, 66, 0];
    assert d[1..] == [0, 66, 0] && UpToNul(d) == [65] && UpToNul(d) + [0] == [65, 0];
    ItemReadsBack(lib, Item(name, kind, d));
    FaithfulExactly(lib, Item(name, kind, d));
  }

  // ---- lists ----

  function Putter(lib: Library): Item -> Option<Json> { x => PutItem(lib, x) }

  function Getter(lib: Library): Json -> Option<Item> { j => GetItem(lib, j) }

  function PutItems(lib: Library, list: seq<Item>): Option<seq<Json>> { Traverse(Putter(lib), list) }

  function GetItems(lib: Library, array_: seq<Json>): Option<seq<Item>> { Traverse(Getter(lib), array_) }

  function PutList(lib: Library, f: Fields, k: Key, list: seq<Item>): Option<Fields> {
    var items :- PutItems(lib, list);
    Some(f[k := Arr(items)])
  }

  function GetList(lib: Library, f: Fields, k: Key): Option<seq<Item>> {
    var j :- Get(f, k);
    if j.Arr? then GetItems(lib, j.items) else None
  }

  lemma ListPuts(lib: Library, list: seq<Item>)
    requires Lawful(lib) && DistinctTypes(lib.types)
    ensures PutItems(lib, list).Some? <==> forall i :: 0 <= i < |list| ==> Puttable(lib, list[i])
  {
    TraverseAt(Putter(lib), list);
    forall i | 0 <= i < |list| ensures Putter(lib)(list[i]).Some? <==> Puttable(lib, list[i]) {
      ItemRoundTrip(lib, list[i]);
    }
  }

  /** Reading an array of which each element was put for an item. */
  lemma ListReads(lib: Library, list: seq<Item>, array_: seq<Json>)
    requires |array_| == |list| && forall i :: 0 <= i < |list| ==> PutItem(lib, list[i]) == Some(array_[i])
    ensures GetItems(lib, array_) == Some(list) <==>
            forall i :: 0 <= i < |list| ==> GetItem(lib, PutItem(lib, list[i]).value) == Some(list[i])
  {
    var g := Getter(lib);
    TraverseAt(g, array_);
    assert forall i :: 0 <= i < |list| ==> g(array_[i]) == GetItem(lib, PutItem(lib, list[i]).value);
    if forall i :: 0 <= i < |list| ==> g(array_[i]) == Some(list[i]) {
      assert Traverse(g, array_).value == list;
    }
  }

  /** A list can be put exactly when every item can, and comes back the same exactly when every item does. */
  lemma ListRoundTrip(lib: Library, list: seq<Item>)
    requires Lawful(lib) && DistinctTypes(lib.types)
    ensures PutItems(lib, list).Some? <==> forall i :: 0 <= i < |list| ==> Puttable(lib, list[i])
    ensures PutItems(lib, list).Some? ==>
              (GetItems(lib, PutItems(lib, list).value) == Some(list) <==>
               forall i :: 0 <= i < |list| ==> Faithful(lib, list[i]))
  {
    ListPuts(lib, list);
    if PutItems(lib, list).Some? {
      TraverseAt(Putter(lib), list);
      ListReads(lib, list, PutItems(lib, list).value);
      forall i | 0 <= i < |list|
        ensures GetItem(lib, PutItem(lib, list[i]).value) == Some(list[i]) <==> Faithful(lib, list[i])
      {
        ItemRoundTrip(lib, list[i]);
      }
    }
  }

  /** The reader's loop over the array. */
  method ReadItems(lib: Library, array_: seq<Json>) returns (list: Option<seq<Item>>)
    ensures list == GetItems(lib, array_)
  {
    var items: seq<Item>, i := [], 0;
    while i < |array_|
      invariant 0 <= i <= |array_| && Traverse(Getter(lib), array_[..i]) == Some(items)
    {
      TraverseStep(Getter(lib), array_, i);
      var x := GetItem(lib, array_[i]);
      if x == None { return None; }
      items := items + [x.value];
      i := i + 1;
    }
    assert array_[..i] == array_;
    return Some(items);
  }
}
