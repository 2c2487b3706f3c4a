/** The product record: four fixed fields, an identifier and an open map of
    dynamic attributes. */
module Model {
  import opened Wrappers
  import opened Bson

  /** The state of a product, as a value. */
  datatype Record = Record(
    id: Option<ObjectId>,
    name: Option<string>,
    description: Option<string>,
    category: Option<string>,
    price: Option<real>,
    fields: map<string, Value>)

  /** A mutable product. Absent (null) fixed fields are `None`; the attribute
      map is never null. Reading `fields` stands for `getAdditionalFields()`,
      which hands out the live map, and assigning `fields` from outside stands
      for a change made through that live map. */
  class Product {
    var id: Option<ObjectId>
    var name: Option<string>
    var description: Option<string>
    var category: Option<string>
    var price: Option<real>
    var fields: map<string, Value>

    function Snapshot(): Record
      reads this
    {
      Record(id, name, description, category, price, fields)
    }

    /** `new Product()`: nothing set, an empty attribute map. */
    constructor ()
      ensures Snapshot() == Record(None, None, None, None, None, map[])
    {
      id, name, description, category, price := None, None, None, None, None;
      fields := map[];
    }

    /** The five-argument constructor; the id arrives already parsed and the
        price is a primitive, so always present. */
    constructor Of(id: ObjectId, name: Option<string>, description: Option<string>,
                   category: Option<string>, price: real)
      ensures Snapshot() == Record(Some(id), name, description, category, Some(price), map[])
    {
      this.id := Some(id);
      this.name := name;
      this.description := description;
      this.category := category;
      this.price := Some(price);
      this.fields := map[];
    }

    method SetId(id: Option<ObjectId>)
      modifies this
      ensures Snapshot() == old(Snapshot()).(id := id)
    {
      this.id := id;
    }

    /** Like the other fixed-field setters, leaves the attribute map alone. */
    method SetName(name: Option<string>)
      modifies this
      ensures Snapshot() == old(Snapshot()).(name := name)
    {
      this.name := name;
    }

    method SetDescription(description: Option<string>)
      modifies this
      ensures Snapshot() == old(Snapshot()).(description := description)
    {
      this.description := description;
    }

    method SetCategory(category: Option<string>)
      modifies this
      ensures Snapshot() == old(Snapshot()).(category := category)
    {
      this.category := category;
    }

    method SetPrice(price: Option<real>)
      modifies this
      ensures Snapshot() == old(Snapshot()).(price := price)
    {
      this.price := price;
    }

    /** Inserts or overwrites one attribute; any value is accepted. */
    method AddField(key: string, value: Value)
      modifies this
      ensures Snapshot() == old(Snapshot()).(fields := old(fields)[key := value])
    {
      fields := fields[key := value];
    }

    /** The JSON any-setter: the same effect as `AddField`. */
    method SetFields(key: string, value: Value)
      modifies this
      ensures Snapshot() == old(Snapshot()).(fields := old(fields)[key := value])
    {
      fields := fields[key := value];
    }
  }

  /** `@NotEmpty`: present and of positive length. */
  predicate NonEmpty(s: Option<string>) {
    s.Some? && |s.value| > 0
  }

  /** The bean-validation constraints on the fixed fields. */
  predicate Valid(r: Record) {
    && NonEmpty(r.name)
    && NonEmpty(r.description)
    && NonEmpty(r.category)
    && r.price.Some? && r.price.value > 0.0
  }

  /** The message of the constraint `field` violates in `r`, if any. A missing
      price violates only `@NotNull`, since `@Positive` accepts null. */
  function FieldViolation(r: Record, field: string): Option<string> {
    match field
    case "name" => if NonEmpty(r.name) then None else Some("Name is required")
    case "description" => if NonEmpty(r.description) then None else Some("Description is required")
    case "category" => if NonEmpty(r.category) then None else Some("Category is required")
    case "price" =>
      if r.price.None? then Some("Price is required")
      else if r.price.value <= 0.0 then Some("Price must be a positive value")
      else None
    case _ => None
  }

  const ConstrainedFields: set<string> := {"name", "description", "category", "price"}

  /** The constraint messages a record violates, by field name. */
  function Violations(r: Record): (errors: map<string, string>)
    ensures errors.Keys <= ConstrainedFields
    ensures errors == map[] <==> Valid(r)
    ensures "name" in errors <==> !NonEmpty(r.name)
    ensures "description" in errors <==> !NonEmpty(r.description)
    ensures "category" in errors <==> !NonEmpty(r.category)
    ensures "price" in errors <==> r.price.None? || r.price.value <= 0.0
    ensures "name" in errors ==> errors["name"] == "Name is required"
    ensures "description" in errors ==> errors["description"] == "Description is required"
    ensures "category" in errors ==> errors["category"] == "Category is required"
    ensures "price" in errors && r.price.None? ==> errors["price"] == "Price is required"
    ensures "price" in errors && r.price.Some? ==> errors["price"] == "Price must be a positive value"
  {
    var errors := map f | f in ConstrainedFields && FieldViolation(r, f).Some? :: FieldViolation(r, f).value;
    assert "name" in errors <==> !NonEmpty(r.name);
    assert "description" in errors <==> !NonEmpty(r.description);
    assert "category" in errors <==> !NonEmpty(r.category);
    assert "price" in errors <==> r.price.None? || r.price.value <= 0.0;
    assert errors.Keys <= ConstrainedFields;
    errors
  }

  /** A product without a name is rejected, whatever else it holds. */
  lemma MissingNameInvalid(r: Record)
    requires r.name.None?
    ensures !Valid(r)
    ensures "name" in Violations(r) && Violations(r)["name"] == "Name is required"
  {
  }
}
