# Dynamola request builders, in Dafny

Dynamola is a small helper library over the DynamoDB document client. A
`Dynamola` object is bound to a table name and that table's partition and sort
key attribute names. It turns get, put, delete and update calls into the
parameter objects the document client takes. A companion `ParamsBuilder`
returns fixed CreateTable parameter records for four table shapes.

This project models that request-building layer and proves properties of it:

- `js.dfy` (module `Js`) gives the JavaScript values the builders handle and
  their truthiness. A plain object is an ordered list of `(name, value)`
  properties. It defines a property read (`Get`), a property assignment
  (`Set`) and the effect of assigning one object's properties onto another
  (`Assign`).
- `dynamola.dfy` (module `DynamolaClient`) holds the `Dynamola` client as an
  immutable value. `CreateKey` is a function. Each operation is a method that
  returns the parameters it built. The put and update builders keep the
  source's loops, with their invariants.
- `update_expression.dfy` (module `UpdateExpression`) holds the
  UpdateExpression text `set a = :a_value b = :b_value ...` and its
  placeholder table, as functions. The builder loop is proved against them.
- `update_expression_parser.dfy` (module `UpdateExpressionParser`) is an
  independent reader for that text. The text reads back as the attribute
  names exactly when no name contains a space.
- `params_builder.dfy` (module `ParamsBuilder`) holds the four CreateTable
  records. It also states the rules a CreateTable request must meet, and each
  record is proved to meet them.
- `table_keys.dfy` (module `TableKeys`) connects the two source files. It
  proves when the keys `createKey` builds name exactly the primary key
  attributes of the tables `ParamsBuilder` describes.

The model follows the code. The update text has no commas between clauses.
Attribute names with whitespace are not rejected. A client whose sort key name
is `null` writes a truthy sort value under the property `"null"`
(`TableKeys.BasicTableKey`).

## Model

| member | source | states |
|---|---|---|
| `Js.Truthy` | index.js:207 | the sort value is dropped exactly for the falsy values undefined, null, false, 0 and the empty string |
| `Js.Keys` | index.js:86-87 | `Object.keys` lists one name per property, the i-th name being the i-th property's |
| `Js.Get` | index.js:88 | reading a property finds a value exactly when the object has that name |
| `Js.Set` | index.js:206-208 | after `o[k] = v` an existing name keeps its place and a new one is appended; distinct names stay distinct |
| `Js.SetGet` | index.js:206-208 | after `o[k] = v`, `k` holds `v` and every other name holds what it held before |
| `Js.Assign` | index.js:86-89 | assigning a source's properties onto a target keeps the target's names first and in order, holds exactly the names of both, and keeps names distinct |
| `Js.AssignGet` | index.js:86-89 | after the assignment loop, a source name holds the source's value and every other name holds the target's value |
| `Js.AssignFresh` | index.js:86-89 | when no source name is in the target, the loop appends the source's properties in their order |
| `Js.SetFresh` | index.js:174 | assigning a name the object lacks appends exactly that one property |
| `Js.GetAt` | index.js:87-88 | in an object with distinct names, reading the i-th name gives the i-th value |
| `UpdateExpression.Text` | index.js:168-177 | the update text starts with `set`, and the text for one more attribute is the earlier text followed by that attribute's clause ` name = :name_value` |
| `UpdateExpression.PlaceholderInjective` | index.js:174 | two attribute names share a placeholder `:name_value` if and only if they are equal |
| `UpdateExpression.PlaceholderValues` | index.js:169-175 | the `ExpressionAttributeValues` table has one entry per attribute, in order, each under that attribute's placeholder with its value |
| `UpdateExpression.PlaceholderValuesGet` | index.js:174 | looking up an attribute's placeholder gives that attribute's value, or nothing when the map lacks the name |
| `UpdateExpression.PlaceholderValuesDistinct` | index.js:169-175 | distinct attribute names give a value table with distinct placeholders |
| `UpdateExpression.PlaceholderFresh` | index.js:174 | the next attribute's placeholder is not yet in the table, so each assignment adds an entry |
| `UpdateExpression.TextStep` | index.js:173 | each pass of the loop appends exactly one clause, ` name = :name_value`, to the text |
| `UpdateExpression.PlaceholderValuesStep` | index.js:174 | each pass of the loop adds exactly one entry, the attribute's placeholder and value, after the earlier ones |
| `UpdateExpressionParser.ParseText` | index.js:168-177 | the update text reads back as exactly the attribute names, in order, if and only if no name contains a space |
| `UpdateExpressionParser.ClauseCount` | index.js:170-175 | for space-free names the text holds one clause per attribute |
| `UpdateExpressionParser.NameWithSpacesIsMisread` | test/test.js:82-89 | the text built for the attribute `atr con espacios` does not read back as that attribute |
| `DynamolaClient.Dynamola.SortKeyProperty` | index.js:208 | the sort value is stored under the configured sort key name, or under `"null"` when that name is `null` |
| `DynamolaClient.Dynamola.CreateKey` | index.js:204-212 | the key names the partition attribute, then the sort attribute exactly when the sort value is truthy and the names differ; the partition attribute holds the partition value unless a truthy sort value under the same name overwrote it; the sort attribute holds a truthy sort value |
| `DynamolaClient.Dynamola.GetItemWithPrimarySortKey` | index.js:40-46 | get parameters are the table name and `createKey(pk, sk)`, nothing else |
| `DynamolaClient.Dynamola.GetItem` | index.js:64-66 | the single-key get sends a key holding the partition attribute only |
| `DynamolaClient.Dynamola.AddItemWithPrimarySortKey` | index.js:77-89 | the put item is the key with every caller attribute assigned onto it in enumeration order |
| `DynamolaClient.Dynamola.AddItem` | index.js:109-111 | the single-key put starts the item from the partition attribute only |
| `DynamolaClient.Dynamola.DeleteItemWithPrimarySortKey` | index.js:121-127 | delete parameters are the table name and `createKey(pk, sk)`, nothing else |
| `DynamolaClient.Dynamola.DeleteItem` | index.js:146-148 | the single-key delete sends a key holding the partition attribute only |
| `DynamolaClient.Dynamola.UpdateItemWithPrimarySortKey` | index.js:160-178 | update parameters carry the table name, `createKey(pk, sk)`, the text `set` plus one clause per attribute in order, one placeholder value per attribute, and `ReturnValues = UPDATED_NEW` |
| `DynamolaClient.Dynamola.UpdateItem` | index.js:199-201 | the single-key update sends a key holding the partition attribute only, with the same text and values |
| `DynamolaClient.FalsySortValueDropped` | index.js:207-209 | a falsy sort value (null, undefined, false, 0, "") gives the same key as null: the partition attribute alone |
| `DynamolaClient.PutItemContents` | index.js:83-89 | the put item holds each caller attribute's value; a caller attribute named like a key attribute overrides the key value; other key attributes keep their key values |
| `DynamolaClient.PutItemHasKey` | index.js:83-89 | the put item always has the partition attribute, has the sort attribute when the sort value is truthy, and names no property twice |
| `ParamsBuilder.OneHashFirst` | paramsBuilder.js:43-52 | a well-formed key schema has exactly one HASH element, and it comes first |
| `ParamsBuilder.ValidKeySchemasOneHash` | paramsBuilder.js:9-159 | every key schema of a valid CreateTable request, of the table or of an index, has exactly one HASH element, first |
| `ParamsBuilder.GetParamsToCreateBasicTable` | paramsBuilder.js:9-29 | a valid request for the given table: `Key` declared as a string and the only key (HASH), no index, throughput 5/5 |
| `ParamsBuilder.GetParamsToCreateBasicTableWithSortKey` | paramsBuilder.js:31-59 | a valid request: HASH `Key`, RANGE `SortKey`, both declared strings, no index, throughput 5/5 |
| `ParamsBuilder.GetParamsToCreateBasicTableWithSortKeyAndLSI` | paramsBuilder.js:61-111 | a valid request: HASH `Key`, RANGE `SortKey`; local index `Lsi-index` with the table's HASH and RANGE `Lsi` declared as a number, keys only; throughput 5/5 |
| `ParamsBuilder.GetParamsToCreateBasicTableWithSortKeyGSI` | paramsBuilder.js:113-159 | a valid request: HASH `Key`, RANGE `SortKey`; global index `Gsi-index` on HASH `SortKey` alone, keys only, its own throughput 5/5; table throughput 5/5 |
| `TableKeys.BasicTableKey` | index.js:204-212 | on the basic table a key names exactly the primary key attribute if and only if the sort value is falsy; a truthy sort value adds a property `"null"` |
| `TableKeys.SchemaKeyFits` | index.js:204-212 | for a client whose key names are a key schema's partition and sort attributes, the key fits the schema exactly when the sort value is truthy |
| `TableKeys.CompositeTableKey` | index.js:207-209 | on each table with a sort key a key names exactly the primary key attributes if and only if the sort value is truthy |
| `TableKeys.BasicTableRequests` | index.js:64-200 | the single-key get, delete and update build keys that fit the basic table, all for the client's table |

## Left out

- The document client calls (`get`, `put`, `delete`, `update`), the AWS SDK constructor, the promises and callbacks, and what each promise resolves with. These are a foreign network client and asynchronous control flow. Each method returns the parameters it built instead.
- `customConsoleLog`, `customConsoleError` and `JSON.stringify`. These are logging and serialisation.
- Atomic increment, queries, scans, "greatest value" lookups and table creation calls. `index.js` does not define them; only the tests mention some of them.
- Whitespace validation of update attribute names, operator validation and commas between SET clauses. The code has none of them. `UpdateExpressionParser.ParseText` shows what a name with a space does to the text instead.
- The enumeration order of integer-like property names. `Object.keys` lists names such as `"1"` before the others. The model takes a caller's object to be given in `Object.keys` order. A built object keeps insertion order, which only affects the order of its properties, not their values.
- The property name `__proto__`. Assigning to it changes the object's prototype instead of adding a property.
- Callers that pass something other than a plain object as the attribute map. `Object.keys(null)` throws inside the promise executor.
- A sort key name of `undefined` (a client built with two arguments). The model covers a `null` name, which becomes the property `"null"`. `undefined` would become `"undefined"` in the same way.
- NaN, the infinities, arrays, sets and binary values as attribute values. Numbers are reals.
- CreateTable rules beyond the ones `ParamsBuilder.ValidCreateTable` states (name lengths, character sets, index limits). The four records are only checked against those rules.
