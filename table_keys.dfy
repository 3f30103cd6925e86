/** How the keys `createKey` builds meet the tables `ParamsBuilder`
    describes. A get, delete or update key must name exactly the attributes
    of the table's primary key: no more, no fewer. */
module TableKeys {
  import opened Js
  import opened DynamolaClient
  import opened ParamsBuilder

  /** `key` names exactly the attributes of the key schema `ks`. */
  predicate KeyFitsSchema(key: Object, ks: seq<KeySchemaElement>) {
    && |Keys(key)| == |ks|
    && forall e :: e in ks ==> e.AttributeName in Keys(key)
  }

  /** The client configured as the test suite does for the basic table
      (test/test.js:42): partition `Key`, sort key name `null`. */
  function BasicClient(tableName: string): Dynamola {
    Dynamola(tableName, "Key", None)
  }

  /** The client configured for the three tables with a sort key
      (test/test.js:126). */
  function CompositeClient(tableName: string): Dynamola {
    Dynamola(tableName, "Key", Some("SortKey"))
  }

  /** On the basic table a key fits exactly when the sort value is falsy; a
      truthy one adds a property named "null", which the table does not have. */
  lemma BasicTableKey(tableName: string, pk: Value, sk: Value)
    ensures KeyFitsSchema(BasicClient(tableName).CreateKey(pk, sk), GetParamsToCreateBasicTable(tableName).KeySchema)
      <==> !Truthy(sk)
    ensures Truthy(sk) ==> "null" in Keys(BasicClient(tableName).CreateKey(pk, sk))
  {
    var ks := GetParamsToCreateBasicTable(tableName).KeySchema;
    assert ks == [KeySchemaElement("Key", HASH)];
  }

  /** A client whose key names are a schema's partition and sort
      attributes builds keys that fit the schema exactly when the sort value
      is truthy. */
  lemma SchemaKeyFits(db: Dynamola, pk: Value, sk: Value, ks: seq<KeySchemaElement>)
    requires WellFormedKeySchema(ks)
    requires HashAttribute(ks) == db.primaryKeyName
    requires RangeAttribute(ks) == Some(db.SortKeyProperty())
    ensures KeyFitsSchema(db.CreateKey(pk, sk), ks) <==> Truthy(sk)
  {
    var key := db.CreateKey(pk, sk);
    assert |ks| == 2;
    if KeyFitsSchema(key, ks) {
      assert ks[1] in ks;
    }
    if Truthy(sk) {
      assert forall e :: e in ks ==> e == ks[0] || e == ks[1];
    }
  }

  /** On each table with a sort key, a key fits exactly when the sort value
      is truthy: an empty string or a zero sort value is dropped, and the
      key then lacks `SortKey`. */
  lemma CompositeTableKey(tableName: string, pk: Value, sk: Value)
    ensures var key := CompositeClient(tableName).CreateKey(pk, sk);
      && (KeyFitsSchema(key, GetParamsToCreateBasicTableWithSortKey(tableName).KeySchema) <==> Truthy(sk))
      && (KeyFitsSchema(key, GetParamsToCreateBasicTableWithSortKeyAndLSI(tableName).KeySchema) <==> Truthy(sk))
      && (KeyFitsSchema(key, GetParamsToCreateBasicTableWithSortKeyGSI(tableName).KeySchema) <==> Truthy(sk))
  {
    var db := CompositeClient(tableName);
    SchemaKeyFits(db, pk, sk, GetParamsToCreateBasicTableWithSortKey(tableName).KeySchema);
    SchemaKeyFits(db, pk, sk, GetParamsToCreateBasicTableWithSortKeyAndLSI(tableName).KeySchema);
    SchemaKeyFits(db, pk, sk, GetParamsToCreateBasicTableWithSortKeyGSI(tableName).KeySchema);
  }

  /** The single-key wrappers build keys that fit the basic table. */
  method BasicTableRequests(tableName: string, pk: Value, attrs: Object)
    returns (get: KeyParams, put: PutParams, del: KeyParams, upd: UpdateParams)
    requires DistinctKeys(attrs)
    ensures var ks := GetParamsToCreateBasicTable(tableName).KeySchema;
      && KeyFitsSchema(get.Key, ks) && KeyFitsSchema(del.Key, ks) && KeyFitsSchema(upd.Key, ks)
      && get.TableName == put.TableName == del.TableName == upd.TableName == tableName
  {
    var db := BasicClient(tableName);
    get := db.GetItem(pk);
    put := db.AddItem(pk, attrs);
    del := db.DeleteItem(pk);
    upd := db.UpdateItem(pk, attrs);
    BasicTableKey(tableName, pk, Null);
  }
}
