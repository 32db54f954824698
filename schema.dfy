/** The generated `Transfer` entity: a typed view of an `EntityData` map.
    Setters write one key each with the matching `Value` variant; getters
    read it back and panic when the key is missing or holds another
    variant. The host store behind `save`/`load`/`remove` is a map from
    (entity type, id) to field maps. */
module Schema {
  import opened Wrappers
  import opened Types

  const ENTITY_TYPE: string := "Transfer"

  const ID: string := "id"
  const FROM: string := "from"
  const TO: string := "to"
  const VALUE: string := "value"
  const BLOCK_NUMBER: string := "blockNumber"
  const BLOCK_TIMESTAMP: string := "blockTimestamp"
  const TRANSACTION_HASH: string := "transactionHash"

  /** The field names are pairwise distinct, so each setter's key is no
      other getter's key. */
  lemma FieldNamesDistinct()
    ensures |{ID, FROM, TO, VALUE, BLOCK_NUMBER, BLOCK_TIMESTAMP, TRANSACTION_HASH}| == 7
  {
  }

  /** The graph-node store as the mapping sees it: the field map saved under
      each (entity type, id). */
  class HostStore {
    var entities: map<(string, string), map<string, Value>>

    constructor ()
      ensures entities == map[]
    {
      entities := map[];
    }

    /** `store::set`. */
    method Set(entityType: string, id: string, fields: map<string, Value>)
      modifies this
      ensures entities == old(entities)[(entityType, id) := fields]
    {
      entities := entities[(entityType, id) := fields];
    }

    /** `store::get`. */
    function Get(entityType: string, id: string): (r: Option<map<string, Value>>)
      reads this
      ensures r.Some? <==> (entityType, id) in entities
      ensures r.Some? ==> r.value == entities[(entityType, id)]
    {
      if (entityType, id) in entities then Some(entities[(entityType, id)]) else None
    }

    /** `store::remove`. */
    method Remove(entityType: string, id: string)
      modifies this
      ensures entities == old(entities) - {(entityType, id)}
    {
      entities := entities - {(entityType, id)};
    }
  }

  class Transfer {
    const data: EntityData

    /** `Transfer::new(id)`: a fresh map holding only "id". */
    constructor (id: string)
      ensures fresh(data)
      ensures data.fields == map[ID := String(id)]
      ensures Id() == Ok(id)
      ensures From().Err? && To().Err? && Value().Err?
      ensures BlockNumber().Err? && BlockTimestamp().Err? && TransactionHash().Err?
    {
      data := new EntityData();
      new;
      data.Set(ID, String(id));
    }

    /** An entity around field data loaded from the store. */
    constructor FromData(fields: map<string, Value>)
      ensures fresh(data) && data.fields == fields
    {
      var d := new EntityData();
      d.fields := fields;
      data := d;
    }

    /** `id()`: the "id" string. */
    function Id(): (r: Result<string>)
      reads data
      ensures r.Ok? <==> ID in data.fields && data.fields[ID].String?
      ensures r.Ok? ==> data.fields[ID] == String(r.value)
    {
      data.GetString(ID)
    }

    function From(): (r: Result<Bytes>)
      reads data
      ensures r.Ok? <==> FROM in data.fields && data.fields[FROM].BytesValue?
      ensures r.Ok? ==> data.fields[FROM] == BytesValue(r.value)
    {
      data.GetBytes(FROM)
    }

    function To(): (r: Result<Bytes>)
      reads data
      ensures r.Ok? <==> TO in data.fields && data.fields[TO].BytesValue?
      ensures r.Ok? ==> data.fields[TO] == BytesValue(r.value)
    {
      data.GetBytes(TO)
    }

    function Value(): (r: Result<BigInt>)
      reads data
      ensures r.Ok? <==> VALUE in data.fields && data.fields[VALUE].BigIntValue?
      ensures r.Ok? ==> data.fields[VALUE] == BigIntValue(r.value)
    {
      data.GetBigInt(VALUE)
    }

    function BlockNumber(): (r: Result<BigInt>)
      reads data
      ensures r.Ok? <==> BLOCK_NUMBER in data.fields && data.fields[BLOCK_NUMBER].BigIntValue?
      ensures r.Ok? ==> data.fields[BLOCK_NUMBER] == BigIntValue(r.value)
    {
      data.GetBigInt(BLOCK_NUMBER)
    }

    function BlockTimestamp(): (r: Result<BigInt>)
      reads data
      ensures r.Ok? <==> BLOCK_TIMESTAMP in data.fields && data.fields[BLOCK_TIMESTAMP].BigIntValue?
      ensures r.Ok? ==> data.fields[BLOCK_TIMESTAMP] == BigIntValue(r.value)
    {
      data.GetBigInt(BLOCK_TIMESTAMP)
    }

    function TransactionHash(): (r: Result<Bytes>)
      reads data
      ensures r.Ok? <==> TRANSACTION_HASH in data.fields && data.fields[TRANSACTION_HASH].BytesValue?
      ensures r.Ok? ==> data.fields[TRANSACTION_HASH] == BytesValue(r.value)
    {
      data.GetBytes(TRANSACTION_HASH)
    }

    method SetFrom(val: Bytes)
      modifies data
      ensures data.fields == old(data.fields)[FROM := BytesValue(val)]
      ensures From() == Ok(val) && Id() == old(Id())
    {
      data.Set(FROM, BytesValue(val));
    }

    method SetTo(val: Bytes)
      modifies data
      ensures data.fields == old(data.fields)[TO := BytesValue(val)]
      ensures To() == Ok(val) && Id() == old(Id())
    {
      data.Set(TO, BytesValue(val));
    }

    method SetValue(val: BigInt)
      modifies data
      ensures data.fields == old(data.fields)[VALUE := BigIntValue(val)]
      ensures Value() == Ok(val) && Id() == old(Id())
    {
      data.Set(VALUE, BigIntValue(val));
    }

    method SetBlockNumber(val: BigInt)
      modifies data
      ensures data.fields == old(data.fields)[BLOCK_NUMBER := BigIntValue(val)]
      ensures BlockNumber() == Ok(val) && Id() == old(Id())
    {
      data.Set(BLOCK_NUMBER, BigIntValue(val));
    }

    method SetBlockTimestamp(val: BigInt)
      modifies data
      ensures data.fields == old(data.fields)[BLOCK_TIMESTAMP := BigIntValue(val)]
      ensures BlockTimestamp() == Ok(val) && Id() == old(Id())
    {
      data.Set(BLOCK_TIMESTAMP, BigIntValue(val));
    }

    method SetTransactionHash(val: Bytes)
      modifies data
      ensures data.fields == old(data.fields)[TRANSACTION_HASH := BytesValue(val)]
      ensures TransactionHash() == Ok(val) && Id() == old(Id())
    {
      data.Set(TRANSACTION_HASH, BytesValue(val));
    }

    /** `save`: store the field map under ("Transfer", id()); an entity
        without a string id panics before reaching the store. */
    method Save(store: HostStore) returns (r: Result<()>)
      modifies store
      ensures r.Ok? <==> Id().Ok?
      ensures r.Ok? ==> store.entities == old(store.entities)[(ENTITY_TYPE, Id().value) := data.fields]
      ensures r.Err? ==> store.entities == old(store.entities)
    {
      var id := Id();
      if id.Err? {
        return Err(id.message);
      }
      store.Set(ENTITY_TYPE, id.value, data.fields);
      r := Ok(());
    }
  }

  /** `Transfer::load(id)`: the entity saved under ("Transfer", id), if
      any. */
  method Load(store: HostStore, id: string) returns (r: Option<Transfer>)
    ensures r.Some? <==> (ENTITY_TYPE, id) in store.entities
    ensures r.Some? ==> fresh(r.value.data) && r.value.data.fields == store.entities[(ENTITY_TYPE, id)]
  {
    var fields := store.Get(ENTITY_TYPE, id);
    if fields.None? {
      return None;
    }
    var t := new Transfer.FromData(fields.value);
    r := Some(t);
  }

  /** `Transfer::remove(id)`. */
  method Remove(store: HostStore, id: string)
    modifies store
    ensures store.entities == old(store.entities) - {(ENTITY_TYPE, id)}
  {
    store.Remove(ENTITY_TYPE, id);
  }
}
