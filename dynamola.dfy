/** The request-building layer of the `Dynamola` class (index.js).

    Each operation builds the parameter object it hands to the document
    client; the call itself, its callback and the promise around it are not
    part of this model, so each method returns the parameters it built. */
module DynamolaClient {
  import opened Js
  import opened UpdateExpression

  /** Parameters of a get or a delete: the table and the key, nothing else. */
  datatype KeyParams = KeyParams(TableName: string, Key: Object)

  /** Parameters of a put. */
  datatype PutParams = PutParams(TableName: string, Item: Object)

  /** Parameters of an update. */
  datatype UpdateParams = UpdateParams(
    TableName: string,
    Key: Object,
    ExpressionAttributeValues: Object,
    UpdateExpression: string,
    ReturnValues: string)

  /** A client for one table: its name, the partition key's attribute name and
      the sort key's attribute name, `None` standing for the `null` passed for
      a table without a sort key. Nothing changes these after construction. */
  datatype Dynamola = Dynamola(tableName: string, primaryKeyName: string, primarySortKeyName: Option<string>)
  {
    /** The property name `ret[this.primarySortKeyName]` writes: JavaScript
        turns a `null` property name into the string "null". */
    function SortKeyProperty(): (p: string)
      ensures primarySortKeyName == Some(p) || (primarySortKeyName == None && p == "null")
    {
      match primarySortKeyName
      case None => "null"
      case Some(name) => name
    }

    /** `createKey`: the partition attribute, then the sort attribute when the
        sort value is truthy. When both attribute names are the same, the
        sort value overwrites the partition value. */
    function CreateKey(primaryKeyValue: Value, primarySortKeyValue: Value): (key: Object)
      ensures DistinctKeys(key)
      ensures Keys(key) == [primaryKeyName] +
        (if Truthy(primarySortKeyValue) && SortKeyProperty() != primaryKeyName then [SortKeyProperty()] else [])
      ensures Get(key, primaryKeyName) ==
        Some(if Truthy(primarySortKeyValue) && SortKeyProperty() == primaryKeyName then primarySortKeyValue else primaryKeyValue)
      ensures Truthy(primarySortKeyValue) ==> Get(key, SortKeyProperty()) == Some(primarySortKeyValue)
    {
      var ret := Set([], primaryKeyName, primaryKeyValue);
      SetGet([], primaryKeyName, primaryKeyValue, primaryKeyName);
      SetGet(ret, SortKeyProperty(), primarySortKeyValue, primaryKeyName);
      SetGet(ret, SortKeyProperty(), primarySortKeyValue, SortKeyProperty());
      if Truthy(primarySortKeyValue) then Set(ret, SortKeyProperty(), primarySortKeyValue) else ret
    }

    /** `getItemWithPrimarySortKey`, up to the call to the document client. */
    method GetItemWithPrimarySortKey(primaryKeyValue: Value, primarySortKeyValue: Value) returns (params: KeyParams)
      ensures params.TableName == tableName
      ensures params.Key == CreateKey(primaryKeyValue, primarySortKeyValue)
    {
      params := KeyParams(tableName, CreateKey(primaryKeyValue, primarySortKeyValue));
    }

    /** `getItem`: the key holds the partition attribute only. */
    method GetItem(primaryKeyValue: Value) returns (params: KeyParams)
      ensures params == KeyParams(tableName, [(primaryKeyName, primaryKeyValue)])
    {
      params := GetItemWithPrimarySortKey(primaryKeyValue, Null);
    }

    /** `addItemWithPrimarySortKey`: the key, then each caller attribute
        assigned onto it in enumeration order. */
    method AddItemWithPrimarySortKey(primaryKeyValue: Value, primarySortKeyValue: Value, itemAttributes: Object)
      returns (params: PutParams)
      requires DistinctKeys(itemAttributes)
      ensures params.TableName == tableName
      ensures params.Item == Assign(CreateKey(primaryKeyValue, primarySortKeyValue), itemAttributes)
    {
      var key := CreateKey(primaryKeyValue, primarySortKeyValue);
      var item := key;
      var names := Keys(itemAttributes);
      var i := 0;
      while i < |names|
        invariant 0 <= i <= |names|
        invariant item == Assign(key, itemAttributes[..i])
      {
        var name := names[i];
        GetAt(itemAttributes, i);
        item := Set(item, name, Get(itemAttributes, name).value);
        AssignStep(key, itemAttributes, i);
        i := i + 1;
      }
      assert itemAttributes[..i] == itemAttributes;
      params := PutParams(tableName, item);
    }

    /** `addItem`: the item starts from the partition attribute only. */
    method AddItem(primaryKeyValue: Value, itemAttributes: Object) returns (params: PutParams)
      requires DistinctKeys(itemAttributes)
      ensures params == PutParams(tableName, Assign([(primaryKeyName, primaryKeyValue)], itemAttributes))
    {
      params := AddItemWithPrimarySortKey(primaryKeyValue, Null, itemAttributes);
    }

    /** `deleteItemWithPrimarySortKey`, up to the call to the document client. */
    method DeleteItemWithPrimarySortKey(primaryKeyValue: Value, primarySortKeyValue: Value) returns (params: KeyParams)
      ensures params.TableName == tableName
      ensures params.Key == CreateKey(primaryKeyValue, primarySortKeyValue)
    {
      params := KeyParams(tableName, CreateKey(primaryKeyValue, primarySortKeyValue));
    }

    /** `deleteItem`: the key holds the partition attribute only. */
    method DeleteItem(primaryKeyValue: Value) returns (params: KeyParams)
      ensures params == KeyParams(tableName, [(primaryKeyName, primaryKeyValue)])
    {
      params := DeleteItemWithPrimarySortKey(primaryKeyValue, Null);
    }

    /** `updateItemWithPrimarySortKey`: the key, the text `set` followed by one
        clause per attribute, one placeholder value per attribute, and a
        request for the updated attributes. */
    method UpdateItemWithPrimarySortKey(primaryKeyValue: Value, primarySortKeyValue: Value, itemAttributesToChange: Object)
      returns (params: UpdateParams)
      requires DistinctKeys(itemAttributesToChange)
      ensures params.TableName == tableName
      ensures params.Key == CreateKey(primaryKeyValue, primarySortKeyValue)
      ensures params.UpdateExpression == Text(Keys(itemAttributesToChange))
      ensures params.ExpressionAttributeValues == PlaceholderValues(itemAttributesToChange)
      ensures params.ReturnValues == "UPDATED_NEW"
    {
      var key := CreateKey(primaryKeyValue, primarySortKeyValue);
      var attrs := itemAttributesToChange;
      var strUpdateExpression := "set";
      var values: Object := [];
      var names := Keys(attrs);
      var i := 0;
      while i < |names|
        invariant 0 <= i <= |names|
        invariant strUpdateExpression == Text(names[..i])
        invariant values == PlaceholderValues(attrs[..i])
      {
        var name := names[i];
        strUpdateExpression := strUpdateExpression + Clause(name);
        TextStep(names, i);
        GetAt(attrs, i);
        PlaceholderFresh(attrs, i);
        SetFresh(values, Placeholder(name), Get(attrs, name).value);
        values := Set(values, Placeholder(name), Get(attrs, name).value);
        PlaceholderValuesStep(attrs, i);
        i := i + 1;
      }
      assert names[..i] == names;
      assert attrs[..i] == attrs;
      params := UpdateParams(tableName, key, values, strUpdateExpression, "UPDATED_NEW");
    }

    /** `updateItem`: the key holds the partition attribute only. */
    method UpdateItem(primaryKeyValue: Value, itemAttributesToChange: Object) returns (params: UpdateParams)
      requires DistinctKeys(itemAttributesToChange)
      ensures params.Key == [(primaryKeyName, primaryKeyValue)]
      ensures params.TableName == tableName
      ensures params.UpdateExpression == Text(Keys(itemAttributesToChange))
      ensures params.ExpressionAttributeValues == PlaceholderValues(itemAttributesToChange)
      ensures params.ReturnValues == "UPDATED_NEW"
    {
      params := UpdateItemWithPrimarySortKey(primaryKeyValue, Null, itemAttributesToChange);
    }
  }

  /** A falsy sort value is dropped: the key is the partition attribute alone,
      whatever the sort value was (null, undefined, false, 0 or ""). */
  lemma FalsySortValueDropped(db: Dynamola, pk: Value, sk: Value)
    requires !Truthy(sk)
    ensures db.CreateKey(pk, sk) == db.CreateKey(pk, Null) == [(db.primaryKeyName, pk)]
  {
  }

  /** The item a put sends holds every caller attribute with the caller's
      value, and every key attribute the caller did not also name with its
      key value. */
  lemma {:induction false} PutItemContents(db: Dynamola, pk: Value, sk: Value, attrs: Object, name: string)
    requires DistinctKeys(attrs)
    ensures Get(Assign(db.CreateKey(pk, sk), attrs), name) ==
      if name in Keys(attrs) then Get(attrs, name) else Get(db.CreateKey(pk, sk), name)
  {
    AssignGet(db.CreateKey(pk, sk), attrs, name);
  }

  /** The item a put sends always has the partition attribute, has the sort
      attribute when the sort value is truthy, and names no property twice. */
  lemma {:induction false} PutItemHasKey(db: Dynamola, pk: Value, sk: Value, attrs: Object)
    requires DistinctKeys(attrs)
    ensures var item := Assign(db.CreateKey(pk, sk), attrs);
      && DistinctKeys(item)
      && Get(item, db.primaryKeyName).Some?
      && (Truthy(sk) ==> Get(item, db.SortKeyProperty()).Some?)
  {
    AssignGet(db.CreateKey(pk, sk), attrs, db.primaryKeyName);
    AssignGet(db.CreateKey(pk, sk), attrs, db.SortKeyProperty());
  }
}
