# Flexible-schema product records

A model of the core of a product catalogue service. A product has an
identifier, four fixed fields (name, description, category, price) and an open
map of dynamic attributes. Three parts are modelled:

- **Record model** (`model.dfy`, module `Model`): the mutable `Product` class,
  its constructors and setters, and the validity constraints of its bean
  annotations. `Record` is the value a product holds at one moment.
- **Document codec** (`converter.dfy`, module `Converter`): the writing
  converter flattens a product into one BSON document. The reading converter
  splits a document back into fixed fields and "every other key". Each is a
  method proved against a specification function (`Encoded`, `Decoded`).
  Lemmas give the key sets, the restriction, both round trips, and the
  shadowing of a fixed field by a same-named attribute.
- **Service** (`service.dfy`, module `Service`): the product service over a
  repository modelled as a `map<ObjectId, Record>`. That covers lookup, listing,
  saving and deleting, and `UpdateProduct`, which reconciles a stored record
  against a full replacement. That method is proved against `Reconciled`.

`bson.dfy` (module `Bson`) holds the document values (a tagged JSON union with
BSON's ObjectId), the `Document` type and the typed getters the reading
converter calls. `wrappers.dfy` holds `Option` and `Result`.

Absent (Java `null`) fixed fields are `None`. A product's attribute map is
never null. Reading `Product.fields` stands for `getAdditionalFields()`. That
getter returns the live map, so the service's `removeIf` and `putAll` are
modelled as writes to `fields` of the product being updated
(`Service.RemoveMissingFields`, `Service.PutAllFields`). The other getters are
plain field reads.

On three points the code's behaviour is easy to misread:

- The encoder does not skip attributes whose key is a reserved name. It copies
  every attribute after the fixed fields, so such an attribute overwrites the
  fixed value. `Converter.Encoded` states this. `Converter.PriceAttributeShadowsPrice`
  shows a record whose `price` attribute is a string: its encoding carries the
  attribute instead of the fixed price, and reading that document back fails
  with a cast error.
- The identifier key is `_id`.
- A missing or null fixed key decodes to null (`None`), not to a default
  value. A fixed key holding a value of another type raises a
  `ClassCastException` from the typed getter. That is the
  `Err(CastError(key))` path of `Converter.Decoded`.

## Model

| member | source | states |
|---|---|---|
| `Model.Product.constructor` | src/main/java/com/ecom/prodmanager/model/Product.java:36-38 | a new product has no id, no fixed-field values and an empty attribute map |
| `Model.Product.Of` | src/main/java/com/ecom/prodmanager/model/Product.java:40-47 | id, name, description, category and price come from the arguments; the attribute map is empty |
| `Model.Product.SetId` | src/main/java/com/ecom/prodmanager/model/Product.java:54-56 | only the id changes |
| `Model.Product.SetName` | src/main/java/com/ecom/prodmanager/model/Product.java:64-67 | only the name changes; the attribute map is untouched |
| `Model.Product.SetDescription` | src/main/java/com/ecom/prodmanager/model/Product.java:73-76 | only the description changes; the attribute map is untouched |
| `Model.Product.SetCategory` | src/main/java/com/ecom/prodmanager/model/Product.java:82-85 | only the category changes; the attribute map is untouched |
| `Model.Product.SetPrice` | src/main/java/com/ecom/prodmanager/model/Product.java:91-94 | only the price changes; the attribute map is untouched |
| `Model.Product.AddField` | src/main/java/com/ecom/prodmanager/model/Product.java:96-98 | the attribute map gains or overwrites exactly that key; every other key and every fixed field is unchanged |
| `Model.Product.SetFields` | src/main/java/com/ecom/prodmanager/model/Product.java:100-103 | exactly the same effect as `AddField` |
| `Model.Violations` | src/main/java/com/ecom/prodmanager/model/Product.java:23-34 | the set of violated constraints is empty iff the record is valid (name, description and category present and non-empty, price present and positive); each field is reported iff its constraint fails, with the annotation's message |
| `Model.MissingNameInvalid` | src/main/java/com/ecom/prodmanager/model/Product.java:23-24 | a record without a name is invalid and reports "Name is required" |
| `Bson.GetObjectId` | src/main/java/com/ecom/prodmanager/converter/ProductConverter.java:35 | an absent or null `_id` reads as no id; an ObjectId value reads as that id; any other value is a cast error |
| `Bson.GetString` | src/main/java/com/ecom/prodmanager/converter/ProductConverter.java:36-38 | an absent or null key reads as no value; a string value reads as that text; any other value is a cast error |
| `Bson.GetDouble` | src/main/java/com/ecom/prodmanager/converter/ProductConverter.java:39 | an absent or null price reads as no value; a double value reads as that number; any other value (an integer too) is a cast error |
| `Converter.Encoded` | src/main/java/com/ecom/prodmanager/converter/ProductConverter.java:18-25 | the document's keys are the five reserved names plus the attribute keys; every attribute appears with its value, reserved names included; each fixed key not shadowed by an attribute holds the product's id or field (null when absent) |
| `Converter.PriceAttributeShadowsPrice` | src/main/java/com/ecom/prodmanager/converter/ProductConverter.java:19-24 | for a record whose `price` attribute is a string, the document carries that attribute instead of the fixed price, and decoding the document fails on `price` |
| `Converter.Encode` | src/main/java/com/ecom/prodmanager/converter/ProductConverter.java:17-26 | the document built by the successive puts and the attribute loop is `Encoded` of the product |
| `Converter.Attributes` | src/main/java/com/ecom/prodmanager/converter/ProductConverter.java:40-44 | the attributes are the document restricted to the keys outside the reserved names |
| `Converter.DecodeFails` | src/main/java/com/ecom/prodmanager/converter/ProductConverter.java:35-39 | decoding succeeds iff every fixed key is absent, null or of its field's type; a failure names a reserved key present in the document |
| `Converter.DecodeFixedFields` | src/main/java/com/ecom/prodmanager/converter/ProductConverter.java:35-39 | the id and the four fixed fields come from their own keys; a missing or null key gives an absent value, not an error |
| `Converter.DecodeAttributes` | src/main/java/com/ecom/prodmanager/converter/ProductConverter.java:40-44 | the decoded attribute map is the document restricted to non-reserved keys; no reserved key is ever an attribute |
| `Converter.DecodeReservedOnly` | src/main/java/com/ecom/prodmanager/converter/ProductConverter.java:34-45 | a document holding only reserved keys decodes to an empty attribute map |
| `Converter.Decode` | src/main/java/com/ecom/prodmanager/converter/ProductConverter.java:32-46 | the product built by the setters and the filtering loop is fresh and holds `Decoded` of the document; it fails with the same cast error as `Decoded` |
| `Converter.RoundTrip` | src/main/java/com/ecom/prodmanager/converter/ProductConverter.java:17-46 | decoding the encoding of a record gives it back when no attribute key is a reserved name |
| `Converter.ReverseRoundTrip` | src/main/java/com/ecom/prodmanager/converter/ProductConverter.java:17-46 | encoding the decoding of a document gives it back when the document holds all five reserved keys and decodes |
| `Service.Retained` | src/main/java/com/ecom/prodmanager/service/ProductService.java:56 | after the remove step the keys are those of the current map that the replacement also has, with their current values |
| `Service.Synced` | src/main/java/com/ecom/prodmanager/service/ProductService.java:53-60 | removing absent keys and then putting all of the replacement's entries leaves exactly the replacement's attributes |
| `Service.Reconciled` | src/main/java/com/ecom/prodmanager/service/ProductService.java:44-60 | the updated record keeps the existing id, takes the replacement's four fixed fields unconditionally (absent ones included) and holds exactly the replacement's attributes |
| `Service.ReconciledAttributes` | src/main/java/com/ecom/prodmanager/service/ProductService.java:53-60 | keys missing from the replacement are removed; the replacement's keys are updated or added with its values |
| `Service.ReconcileIdempotent` | src/main/java/com/ecom/prodmanager/service/ProductService.java:41-66 | applying the same replacement a second time changes nothing |
| `Service.ReconciledSurvivesStorage` | src/main/java/com/ecom/prodmanager/service/ProductService.java:61-63 | the saved record reads back unchanged through the storage converters when the replacement uses no reserved attribute name |
| `Service.RemoveMissingFields` | src/main/java/com/ecom/prodmanager/service/ProductService.java:56 | `removeIf` through the live map leaves the product's attributes restricted to the replacement's keys, fixed fields untouched |
| `Service.PutAllFields` | src/main/java/com/ecom/prodmanager/service/ProductService.java:59 | `putAll` through the live map overwrites or adds every source entry, fixed fields untouched |
| `Service.Load` | src/main/java/com/ecom/prodmanager/service/ProductService.java:42 | a repository read yields a fresh product holding the stored record |
| `Service.ProductService.constructor` | src/main/java/com/ecom/prodmanager/service/ProductService.java:23-27 | the service works over the given repository contents, each record stored under its own id |
| `Service.ProductService.GetProductById` | src/main/java/com/ecom/prodmanager/service/ProductService.java:29-31 | a store lookup: empty iff the id is not stored, otherwise a fresh product holding the stored record |
| `Service.ProductService.GetAllProducts` | src/main/java/com/ecom/prodmanager/service/ProductService.java:33-35 | on a store whose records carry their own ids: one fresh product per stored record, as many as the store holds, each a stored record, every stored record among them |
| `Service.ProductService.AddProduct` | src/main/java/com/ecom/prodmanager/service/ProductService.java:37-39 | the product is stored as it is under its id; an id-less product first receives the generated unused id; every other entry is unchanged |
| `Service.ProductService.UpdateProduct` | src/main/java/com/ecom/prodmanager/service/ProductService.java:41-66 | not found: returns empty and leaves the store unchanged; found: returns a product holding `Reconciled` of the stored record and the replacement, and the store maps the id to it with every other entry unchanged |
| `Service.ProductService.DeleteProduct` | src/main/java/com/ecom/prodmanager/service/ProductService.java:69-71 | only that id is removed from the store; an unknown id changes nothing |

## Left out

- `Service.ProductService.UpdateProduct`: the `updatedFields != null` guard (ProductService.java:54) has no null case here. Both `Product` constructors allocate the map and nothing assigns null to it, so that branch cannot be taken.
- `Service.ProductService.UpdateProduct`: the number of repository calls (one lookup, one save) is not stated. The contract gives the resulting store, which one write produces.
- `Service.ProductService.AddProduct`: the store's id generation for an id-less product is a parameter, `generated`, assumed unused in the store. How the document store assigns and returns it is not modelled.
- The repository holds `Record` values, not BSON documents. `ReconciledSurvivesStorage` and `RoundTrip` say when a save followed by a read through the converters returns the same record.
- `ObjectId`: hex parsing in the five-argument constructor, id generation, and the string-to-ObjectId conversion of the service's `String` ids are not modelled. Ids are opaque values.
- Price is a `real`, not a 64-bit `Double`. Rounding, NaN and infinities are not modelled, since price needs only presence and positivity.
- Order: documents and attribute maps are unordered maps. The insertion order of the encoded document and the order `getAllProducts` lists records in are not modelled.
- `Product.toString`, `JsonUtil`, and the JSON any-getter/any-setter flattening at the HTTP boundary are not modelled. They are reflection-driven library behaviour; the converters capture the same merge and split.
- The HTTP controller (status codes, copying field errors into a response map) and the Mongo and Jackson configuration classes are framework wiring and are not modelled.
- Concurrent updates of one record (last write wins, no guard in the code) are the store's concern and are not modelled.
