/** The two storage converters: a product flattened into one document, and a
    document split back into fixed fields and attributes. */
module Converter {
  import opened Wrappers
  import opened Bson
  import opened Model

  const IdKey := "_id"
  const NameKey := "name"
  const DescriptionKey := "description"
  const CategoryKey := "category"
  const PriceKey := "price"

  /** The keys of the fixed fields, never decoded as attributes. */
  const Reserved: set<string> := {IdKey, NameKey, DescriptionKey, CategoryKey, PriceKey}

  function IdValue(id: Option<ObjectId>): Value {
    if id.Some? then Oid(id.value) else Null
  }

  function StringValue(s: Option<string>): Value {
    if s.Some? then Str(s.value) else Null
  }

  function DoubleValue(x: Option<real>): Value {
    if x.Some? then Double(x.value) else Null
  }

  /** The first five puts of the writing converter; absent fields are put as null. */
  function FixedPart(r: Record): Document {
    map[IdKey := IdValue(r.id), NameKey := StringValue(r.name),
        DescriptionKey := StringValue(r.description),
        CategoryKey := StringValue(r.category), PriceKey := DoubleValue(r.price)]
  }

  /** The document written for `r`. Every attribute is put after the fixed
      fields, reserved names included, so an attribute named after a fixed
      field replaces that field's value. */
  function Encoded(r: Record): (d: Document)
    ensures d.Keys == Reserved + r.fields.Keys
    ensures forall k :: k in r.fields ==> d[k] == r.fields[k]
    ensures IdKey !in r.fields ==> d[IdKey] == IdValue(r.id)
    ensures NameKey !in r.fields ==> d[NameKey] == StringValue(r.name)
    ensures DescriptionKey !in r.fields ==> d[DescriptionKey] == StringValue(r.description)
    ensures CategoryKey !in r.fields ==> d[CategoryKey] == StringValue(r.category)
    ensures PriceKey !in r.fields ==> d[PriceKey] == DoubleValue(r.price)
  {
    FixedPart(r) + r.fields
  }

  /** Every key of `d` outside the reserved names, with its value. */
  function Attributes(d: Document): (m: map<string, Value>)
    ensures m.Keys == d.Keys - Reserved
    ensures forall k :: k in m ==> m[k] == d[k]
  {
    map k | k in d && k !in Reserved :: d[k]
  }

  /** The product read from `d`, or the cast error of the first fixed field,
      in reading order, that holds a value of the wrong type. */
  function Decoded(d: Document): (res: Result<Record, CastError>)
  {
    var id :- GetObjectId(d, IdKey);
    var name :- GetString(d, NameKey);
    var description :- GetString(d, DescriptionKey);
    var category :- GetString(d, CategoryKey);
    var price :- GetDouble(d, PriceKey);
    Ok(Record(id, name, description, category, price, Attributes(d)))
  }

  /** Every fixed field of `d` is absent, null or of its field's type. */
  predicate WellTyped(d: Document) {
    && GetObjectId(d, IdKey).Ok?
    && GetString(d, NameKey).Ok?
    && GetString(d, DescriptionKey).Ok?
    && GetString(d, CategoryKey).Ok?
    && GetDouble(d, PriceKey).Ok?
  }

  /** Decoding fails exactly on a mistyped fixed field, and then names one. */
  lemma DecodeFails(d: Document)
    ensures Decoded(d).Ok? <==> WellTyped(d)
    ensures Decoded(d).Err? ==> Decoded(d).error.key in Reserved
    ensures Decoded(d).Err? ==> Decoded(d).error.key in d
  {
  }

  /** Decoding sets each fixed field from its own key; a missing or null key
      gives an absent field, not an error. */
  lemma DecodeFixedFields(d: Document)
    requires WellTyped(d)
    ensures Decoded(d).Ok?
    ensures Decoded(d).value.id == (if IdKey in d && d[IdKey].Oid? then Some(d[IdKey].oid) else None)
    ensures Decoded(d).value.name == (if NameKey in d && d[NameKey].Str? then Some(d[NameKey].text) else None)
    ensures Decoded(d).value.description ==
            (if DescriptionKey in d && d[DescriptionKey].Str? then Some(d[DescriptionKey].text) else None)
    ensures Decoded(d).value.category ==
            (if CategoryKey in d && d[CategoryKey].Str? then Some(d[CategoryKey].text) else None)
    ensures Decoded(d).value.price ==
            (if PriceKey in d && d[PriceKey].Double? then Some(d[PriceKey].doubleValue) else None)
  {
  }

  /** The decoded attributes are `d` restricted to the non-reserved keys. */
  lemma DecodeAttributes(d: Document)
    requires Decoded(d).Ok?
    ensures Decoded(d).value.fields.Keys == d.Keys - Reserved
    ensures Decoded(d).value.fields.Keys !! Reserved
    ensures forall k :: k in Decoded(d).value.fields ==> Decoded(d).value.fields[k] == d[k]
  {
  }

  /** A document of reserved keys only decodes to an empty (not absent) map. */
  lemma DecodeReservedOnly(d: Document)
    requires d.Keys <= Reserved
    requires Decoded(d).Ok?
    ensures Decoded(d).value.fields == map[]
  {
    assert Decoded(d).value.fields.Keys == {};
  }

  /** Decoding the encoding gives back the record when no attribute uses a
      reserved name. */
  lemma {:induction false} RoundTrip(r: Record)
    requires r.fields.Keys !! Reserved
    ensures Decoded(Encoded(r)) == Ok(r)
  {
    var d := Encoded(r);
    assert Attributes(d) == r.fields;
  }

  /** Encoding the decoding gives back a document that holds every reserved key. */
  lemma {:induction false} ReverseRoundTrip(d: Document)
    requires Reserved <= d.Keys
    requires Decoded(d).Ok?
    ensures Encoded(Decoded(d).value) == d
  {
    var r := Decoded(d).value;
    var e := Encoded(r);
    assert e.Keys == d.Keys;
    forall k | k in d ensures e[k] == d[k] {
      if k !in Reserved {
        assert k in r.fields;
      }
    }
  }

  /** An attribute named `price` shadows the fixed price: the document holds
      the attribute, and reading it back fails on the price key. */
  lemma PriceAttributeShadowsPrice()
    ensures var r := Record(None, Some("Pencil"), Some("0.7mm"), Some("Stationery"), Some(240.0),
                            map["price" := Str("free")]);
            && Encoded(r)["price"] == Str("free")
            && Decoded(Encoded(r)) == Err(CastError("price"))
  {
  }

  /** `ProductToDocumentConverter.convert`. */
  method Encode(p: Product) returns (d: Document)
    ensures d == Encoded(p.Snapshot())
  {
    d := map[];
    d := d[IdKey := IdValue(p.id)];
    d := d[NameKey := StringValue(p.name)];
    d := d[DescriptionKey := StringValue(p.description)];
    d := d[CategoryKey := StringValue(p.category)];
    d := d[PriceKey := DoubleValue(p.price)];
    ghost var fixed := FixedPart(p.Snapshot());
    var attributes := p.fields;
    var pending := attributes.Keys;
    while pending != {}
      invariant pending <= attributes.Keys
      invariant d.Keys == Reserved + (attributes.Keys - pending)
      invariant forall k :: k in attributes && k !in pending ==> d[k] == attributes[k]
      invariant forall k :: k in Reserved && (k !in attributes || k in pending) ==> d[k] == fixed[k]
      decreases pending
    {
      var k :| k in pending;
      d := d[k := attributes[k]];
      pending := pending - {k};
    }
    assert d == fixed + attributes;
  }

  /** `DocumentToProductConverter.convert`: a fresh product, or the cast error
      a typed getter raises. */
  method Decode(d: Document) returns (res: Result<Product, CastError>)
    ensures res.Err? <==> Decoded(d).Err?
    ensures res.Err? ==> res.error == Decoded(d).error
    ensures res.Ok? ==> fresh(res.value) && res.value.Snapshot() == Decoded(d).value
  {
    var p := new Product();
    var id := GetObjectId(d, IdKey);
    if id.Err? { return Err(id.error); }
    p.SetId(id.value);
    var name := GetString(d, NameKey);
    if name.Err? { return Err(name.error); }
    p.SetName(name.value);
    var description := GetString(d, DescriptionKey);
    if description.Err? { return Err(description.error); }
    p.SetDescription(description.value);
    var category := GetString(d, CategoryKey);
    if category.Err? { return Err(category.error); }
    p.SetCategory(category.value);
    var price := GetDouble(d, PriceKey);
    if price.Err? { return Err(price.error); }
    p.SetPrice(price.value);
    ghost var fixed := p.Snapshot();
    var pending := d.Keys;
    while pending != {}
      invariant pending <= d.Keys
      invariant p.fields.Keys == (d.Keys - pending) - Reserved
      invariant forall k :: k in p.fields ==> p.fields[k] == d[k]
      invariant p.Snapshot() == fixed.(fields := p.fields)
      decreases pending
    {
      var k :| k in pending;
      if k != IdKey && k != NameKey && k != DescriptionKey && k != CategoryKey && k != PriceKey {
        p.AddField(k, d[k]);
      }
      pending := pending - {k};
    }
    assert p.fields == Attributes(d);
    res := Ok(p);
  }
}
