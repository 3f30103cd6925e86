/** The four CreateTable parameter records of `ParamsBuilder` (paramsBuilder.js).

    Every record uses the fixed attribute names `Key`, `SortKey` and `Lsi`
    and a provisioned throughput of 5 read and 5 write capacity units. */
module ParamsBuilder {
  import opened Js

  datatype AttributeType = S | N | B
  datatype KeyType = HASH | RANGE
  datatype ProjectionType = KEYS_ONLY | INCLUDE | ALL

  datatype AttributeDefinition = AttributeDefinition(AttributeName: string, AttributeType: AttributeType)
  datatype KeySchemaElement = KeySchemaElement(AttributeName: string, KeyType: KeyType)
  datatype ProvisionedThroughput = ProvisionedThroughput(ReadCapacityUnits: nat, WriteCapacityUnits: nat)
  datatype Projection = Projection(ProjectionType: ProjectionType)

  datatype LocalSecondaryIndex = LocalSecondaryIndex(
    IndexName: string,
    KeySchema: seq<KeySchemaElement>,
    Projection: Projection)

  datatype GlobalSecondaryIndex = GlobalSecondaryIndex(
    IndexName: string,
    KeySchema: seq<KeySchemaElement>,
    Projection: Projection,
    ProvisionedThroughput: ProvisionedThroughput)

  /** A CreateTable request; an index list the record does not carry is `None`. */
  datatype CreateTableParams = CreateTableParams(
    AttributeDefinitions: seq<AttributeDefinition>,
    KeySchema: seq<KeySchemaElement>,
    LocalSecondaryIndexes: Option<seq<LocalSecondaryIndex>>,
    GlobalSecondaryIndexes: Option<seq<GlobalSecondaryIndex>>,
    ProvisionedThroughput: ProvisionedThroughput,
    TableName: string)

  /** A key schema: one HASH element first, then at most one RANGE element
      on another attribute. */
  predicate WellFormedKeySchema(ks: seq<KeySchemaElement>) {
    && 1 <= |ks| <= 2
    && ks[0].KeyType == HASH
    && (|ks| == 2 ==> ks[1].KeyType == RANGE && ks[1].AttributeName != ks[0].AttributeName)
  }

  /** The partition attribute of a well-formed key schema. */
  function HashAttribute(ks: seq<KeySchemaElement>): string
    requires WellFormedKeySchema(ks)
  {
    ks[0].AttributeName
  }

  /** The sort attribute of a well-formed key schema, if it has one. */
  function RangeAttribute(ks: seq<KeySchemaElement>): Option<string>
    requires WellFormedKeySchema(ks)
  {
    if |ks| == 2 then Some(ks[1].AttributeName) else None
  }

  /** How many elements of `ks` are HASH elements. */
  function HashCount(ks: seq<KeySchemaElement>): nat {
    if ks == [] then 0 else (if ks[0].KeyType == HASH then 1 else 0) + HashCount(ks[1..])
  }

  /** The type `defs` declares for `name`. */
  function DeclaredType(defs: seq<AttributeDefinition>, name: string): Option<AttributeType> {
    if defs == [] then None
    else if defs[0].AttributeName == name then Some(defs[0].AttributeType)
    else DeclaredType(defs[1..], name)
  }

  /** The key schemas of the table and of every index it declares. */
  function KeySchemas(p: CreateTableParams): seq<seq<KeySchemaElement>> {
    [p.KeySchema]
    + (match p.LocalSecondaryIndexes
       case None => []
       case Some(lsis) => seq(|lsis|, i requires 0 <= i < |lsis| => lsis[i].KeySchema))
    + (match p.GlobalSecondaryIndexes
       case None => []
       case Some(gsis) => seq(|gsis|, i requires 0 <= i < |gsis| => gsis[i].KeySchema))
  }

  /** The names of every index the table declares. */
  function IndexNames(p: CreateTableParams): seq<string> {
    (match p.LocalSecondaryIndexes
     case None => []
     case Some(lsis) => seq(|lsis|, i requires 0 <= i < |lsis| => lsis[i].IndexName))
    + (match p.GlobalSecondaryIndexes
       case None => []
       case Some(gsis) => seq(|gsis|, i requires 0 <= i < |gsis| => gsis[i].IndexName))
  }

  /** Whether some key schema of the table or its indexes names `name`. */
  predicate UsedInKey(p: CreateTableParams, name: string) {
    exists ks, e :: ks in KeySchemas(p) && e in ks && e.AttributeName == name
  }

  /** The rules a CreateTable request must meet: attribute names declared
      once; every key schema well formed; every key attribute declared and
      every declared attribute used in a key; a local index shares the
      table's partition attribute and has its own sort attribute on a table
      that has one; index names distinct; index lists, when given, not empty;
      throughput at least one unit everywhere. */
  predicate ValidCreateTable(p: CreateTableParams) {
    && (forall i, j :: 0 <= i < j < |p.AttributeDefinitions| ==>
          p.AttributeDefinitions[i].AttributeName != p.AttributeDefinitions[j].AttributeName)
    && (forall ks :: ks in KeySchemas(p) ==> WellFormedKeySchema(ks))
    && (forall ks, e :: ks in KeySchemas(p) && e in ks ==> DeclaredType(p.AttributeDefinitions, e.AttributeName).Some?)
    && (forall d :: d in p.AttributeDefinitions ==> UsedInKey(p, d.AttributeName))
    && (p.LocalSecondaryIndexes.Some? ==>
          && |p.LocalSecondaryIndexes.value| >= 1
          && |p.KeySchema| == 2
          && forall l :: l in p.LocalSecondaryIndexes.value ==>
               |l.KeySchema| == 2 && l.KeySchema[0].AttributeName == p.KeySchema[0].AttributeName)
    && (p.GlobalSecondaryIndexes.Some? ==>
          && |p.GlobalSecondaryIndexes.value| >= 1
          && forall g :: g in p.GlobalSecondaryIndexes.value ==>
               g.ProvisionedThroughput.ReadCapacityUnits >= 1 && g.ProvisionedThroughput.WriteCapacityUnits >= 1)
    && (forall i, j :: 0 <= i < j < |IndexNames(p)| ==> IndexNames(p)[i] != IndexNames(p)[j])
    && p.ProvisionedThroughput.ReadCapacityUnits >= 1
    && p.ProvisionedThroughput.WriteCapacityUnits >= 1
  }

  /** A well-formed key schema has exactly one HASH element, and it comes first. */
  lemma OneHashFirst(ks: seq<KeySchemaElement>)
    requires WellFormedKeySchema(ks)
    ensures HashCount(ks) == 1 && ks[0].KeyType == HASH
  {
    var tail := ks[1..];
    if |ks| == 2 {
      assert tail[0] == ks[1] && tail[1..] == [];
      assert HashCount(tail) == 0;
    } else {
      assert tail == [];
    }
  }

  /** Every key schema of a valid request has exactly one HASH element, first. */
  lemma ValidKeySchemasOneHash(p: CreateTableParams, ks: seq<KeySchemaElement>)
    requires ValidCreateTable(p) && ks in KeySchemas(p)
    ensures HashCount(ks) == 1 && ks[0].KeyType == HASH
  {
    OneHashFirst(ks);
  }

  const Throughput5 := ProvisionedThroughput(5, 5)

  /** A table keyed by `Key` (a string) alone. */
  function GetParamsToCreateBasicTable(tableName: string): (r: CreateTableParams)
    ensures ValidCreateTable(r)
    ensures r.TableName == tableName && r.ProvisionedThroughput == Throughput5
    ensures HashAttribute(r.KeySchema) == "Key" && RangeAttribute(r.KeySchema) == None
    ensures |r.AttributeDefinitions| == 1 && DeclaredType(r.AttributeDefinitions, "Key") == Some(S)
    ensures r.LocalSecondaryIndexes == None && r.GlobalSecondaryIndexes == None
  {
    var r := CreateTableParams(
      [AttributeDefinition("Key", S)],
      [KeySchemaElement("Key", HASH)],
      None,
      None,
      Throughput5,
      tableName);
    assert KeySchemas(r) == [r.KeySchema];
    assert UsedInKey(r, "Key") by { assert r.KeySchema in KeySchemas(r) && r.KeySchema[0] in r.KeySchema; }
    r
  }

  /** A table keyed by `Key` and sorted by `SortKey`, both strings. */
  function GetParamsToCreateBasicTableWithSortKey(tableName: string): (r: CreateTableParams)
    ensures ValidCreateTable(r)
    ensures r.TableName == tableName && r.ProvisionedThroughput == Throughput5
    ensures HashAttribute(r.KeySchema) == "Key" && RangeAttribute(r.KeySchema) == Some("SortKey")
    ensures |r.AttributeDefinitions| == 2
    ensures DeclaredType(r.AttributeDefinitions, "Key") == Some(S)
    ensures DeclaredType(r.AttributeDefinitions, "SortKey") == Some(S)
    ensures r.LocalSecondaryIndexes == None && r.GlobalSecondaryIndexes == None
  {
    var r := CreateTableParams(
      [AttributeDefinition("Key", S), AttributeDefinition("SortKey", S)],
      [KeySchemaElement("Key", HASH), KeySchemaElement("SortKey", RANGE)],
      None,
      None,
      Throughput5,
      tableName);
    assert KeySchemas(r) == [r.KeySchema];
    assert UsedInKey(r, "Key") by { assert r.KeySchema in KeySchemas(r) && r.KeySchema[0] in r.KeySchema; }
    assert UsedInKey(r, "SortKey") by { assert r.KeySchema in KeySchemas(r) && r.KeySchema[1] in r.KeySchema; }
    r
  }

  /** The sort-key table with the local index `Lsi-index`: partition `Key`
      like the table, sort `Lsi` (a number), keys only projected. */
  function GetParamsToCreateBasicTableWithSortKeyAndLSI(tableName: string): (r: CreateTableParams)
    ensures ValidCreateTable(r)
    ensures r.TableName == tableName && r.ProvisionedThroughput == Throughput5
    ensures HashAttribute(r.KeySchema) == "Key" && RangeAttribute(r.KeySchema) == Some("SortKey")
    ensures |r.AttributeDefinitions| == 3
    ensures DeclaredType(r.AttributeDefinitions, "Key") == Some(S)
    ensures DeclaredType(r.AttributeDefinitions, "SortKey") == Some(S)
    ensures DeclaredType(r.AttributeDefinitions, "Lsi") == Some(N)
    ensures r.GlobalSecondaryIndexes == None
    ensures r.LocalSecondaryIndexes.Some? && |r.LocalSecondaryIndexes.value| == 1
    ensures var lsi := r.LocalSecondaryIndexes.value[0];
      && lsi.IndexName == "Lsi-index"
      && WellFormedKeySchema(lsi.KeySchema)
      && HashAttribute(lsi.KeySchema) == HashAttribute(r.KeySchema)
      && RangeAttribute(lsi.KeySchema) == Some("Lsi")
      && lsi.Projection.ProjectionType == KEYS_ONLY
  {
    var lsi := LocalSecondaryIndex(
      "Lsi-index",
      [KeySchemaElement("Key", HASH), KeySchemaElement("Lsi", RANGE)],
      Projection(KEYS_ONLY));
    var r := CreateTableParams(
      [AttributeDefinition("Key", S), AttributeDefinition("SortKey", S), AttributeDefinition("Lsi", N)],
      [KeySchemaElement("Key", HASH), KeySchemaElement("SortKey", RANGE)],
      Some([lsi]),
      None,
      Throughput5,
      tableName);
    var defs := r.AttributeDefinitions;
    assert "Key" != "SortKey" && "Key" != "Lsi" && "SortKey" != "Lsi" by {
      assert |"SortKey"| != |"Key"| && |"SortKey"| != |"Lsi"| && "Key"[0] != "Lsi"[0];
    }
    assert DeclaredType(defs, "Key") == Some(S);
    assert DeclaredType(defs, "SortKey") == Some(S) by { assert defs[1..][0].AttributeName == "SortKey"; }
    assert DeclaredType(defs, "Lsi") == Some(N) by { assert defs[2..][0].AttributeName == "Lsi"; }
    assert KeySchemas(r) == [r.KeySchema, lsi.KeySchema];
    assert IndexNames(r) == ["Lsi-index"];
    assert UsedInKey(r, "Key") by { assert r.KeySchema in KeySchemas(r) && r.KeySchema[0] in r.KeySchema; }
    assert UsedInKey(r, "SortKey") by { assert r.KeySchema in KeySchemas(r) && r.KeySchema[1] in r.KeySchema; }
    assert UsedInKey(r, "Lsi") by { assert lsi.KeySchema in KeySchemas(r) && lsi.KeySchema[1] in lsi.KeySchema; }
    r
  }

  /** The sort-key table with the global index `Gsi-index`: partition
      `SortKey`, no sort attribute, keys only projected, 5/5 throughput of its own. */
  function GetParamsToCreateBasicTableWithSortKeyGSI(tableName: string): (r: CreateTableParams)
    ensures ValidCreateTable(r)
    ensures r.TableName == tableName && r.ProvisionedThroughput == Throughput5
    ensures HashAttribute(r.KeySchema) == "Key" && RangeAttribute(r.KeySchema) == Some("SortKey")
    ensures |r.AttributeDefinitions| == 2
    ensures DeclaredType(r.AttributeDefinitions, "Key") == Some(S)
    ensures DeclaredType(r.AttributeDefinitions, "SortKey") == Some(S)
    ensures r.LocalSecondaryIndexes == None
    ensures r.GlobalSecondaryIndexes.Some? && |r.GlobalSecondaryIndexes.value| == 1
    ensures var gsi := r.GlobalSecondaryIndexes.value[0];
      && gsi.IndexName == "Gsi-index"
      && WellFormedKeySchema(gsi.KeySchema)
      && HashAttribute(gsi.KeySchema) == "SortKey"
      && RangeAttribute(gsi.KeySchema) == None
      && gsi.Projection.ProjectionType == KEYS_ONLY
      && gsi.ProvisionedThroughput == Throughput5
  {
    var gsi := GlobalSecondaryIndex(
      "Gsi-index",
      [KeySchemaElement("SortKey", HASH)],
      Projection(KEYS_ONLY),
      Throughput5);
    var r := CreateTableParams(
      [AttributeDefinition("Key", S), AttributeDefinition("SortKey", S)],
      [KeySchemaElement("Key", HASH), KeySchemaElement("SortKey", RANGE)],
      None,
      Some([gsi]),
      Throughput5,
      tableName);
    assert KeySchemas(r) == [r.KeySchema, gsi.KeySchema];
    assert IndexNames(r) == ["Gsi-index"];
    assert UsedInKey(r, "Key") by { assert r.KeySchema in KeySchemas(r) && r.KeySchema[0] in r.KeySchema; }
    assert UsedInKey(r, "SortKey") by { assert r.KeySchema in KeySchemas(r) && r.KeySchema[1] in r.KeySchema; }
    r
  }
}
