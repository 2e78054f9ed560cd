/** UnbufferedEntityShaper<TEntity>: the identity rule of the relational entity
    shaper. A tracking query returns the entity already tracked by the state
    manager when there is one; otherwise the entity is materialized from the
    current value buffer. */
module UnbufferedEntityShaping {
  import opened Wrappers
  import opened ClrInt
  import opened ClrTypes

  /** An entity instance, compared by identity. */
  datatype Entity = Entity(id: nat)

  datatype QuerySource = QuerySource(itemName: string)

  datatype Key = Key(name: string)

  /** The DbContext the query runs against. */
  datatype DbContext = DbContext(id: nat)

  /** A state manager entry, as far as Shape reads it. */
  datatype InternalEntityEntry = InternalEntityEntry(entity: Entity)

  /** StateManager.TryGetEntry(key, keyValues, throwOnNullKey, out _): the tracked
      entry for the key values, if any. */
  datatype StateManager = StateManager(tryGetEntry: (Key, seq<Value>, bool) -> Option<InternalEntityEntry>)

  datatype QueryContext = QueryContext(stateManager: StateManager, context: DbContext)

  /** What the materializer delegate receives. */
  datatype MaterializationContext = MaterializationContext(valueBuffer: ValueBuffer, context: DbContext)

  type Materializer = MaterializationContext -> Entity

  /** UnbufferedOffsetEntityShaper<T>, as far as Cast and WithOffset build it. */
  datatype OffsetEntityShaper = OffsetEntityShaper(
    entityType: ClrType,
    querySource: QuerySource,
    isTrackingQuery: bool,
    key: Key,
    materializer: Materializer,
    valueBufferOffset: Int32)
  {
    /** Shaper.AddOffset, whose body is not part of this model: assumed to add
        `offset` to the offset with unchecked int addition and change nothing else. */
    function AddOffset(offset: Int32): (r: OffsetEntityShaper)
      ensures r.entityType == entityType && r.querySource == querySource
      ensures r.isTrackingQuery == isTrackingQuery && r.key == key && r.materializer == materializer
      ensures InInt32Range(valueBufferOffset as int + offset as int) ==>
                r.valueBufferOffset as int == valueBufferOffset as int + offset as int
    {
      this.(valueBufferOffset := UncheckedAdd(valueBufferOffset, offset))
    }
  }

  /** UnbufferedEntityShaper<TEntity>: `entityType` is TEntity. */
  datatype UnbufferedEntityShaper = UnbufferedEntityShaper(
    entityType: ClrType,
    querySource: QuerySource,
    isTrackingQuery: bool,
    key: Key,
    materializer: Materializer,
    allowNullResult: bool)
  {
    /** Shaper.Type: typeof(TEntity). */
    function Type(): ClrType {
      entityType
    }

    /** The state manager lookup a tracking query makes: the shaper's key, no key
        values, and throwOnNullKey set unless a null result is allowed. */
    function Lookup(queryContext: QueryContext): Option<InternalEntityEntry> {
      queryContext.stateManager.tryGetEntry(key, [], !allowNullResult)
    }

    /** Materializer(new MaterializationContext(valueBuffer, queryContext.Context)). */
    function Materialize(queryContext: QueryContext, valueBuffer: ValueBuffer): Entity {
      materializer(MaterializationContext(valueBuffer, queryContext.context))
    }

    /** UnbufferedEntityShaper.Shape. */
    function Shape(queryContext: QueryContext, valueBuffer: ValueBuffer): Entity {
      if isTrackingQuery && Lookup(queryContext).Some? then Lookup(queryContext).value.entity
      else Materialize(queryContext, valueBuffer)
    }

    /** UnbufferedEntityShaper.Cast<TDerived>: an offset shaper for `derived` with
        the same query source, tracking flag, key and materializer. */
    function Cast(derived: ClrType): (r: OffsetEntityShaper)
      ensures r.entityType == derived
      ensures r.querySource == querySource && r.isTrackingQuery == isTrackingQuery
      ensures r.key == key && r.materializer == materializer
      ensures r.valueBufferOffset == 0
    {
      OffsetEntityShaper(derived, querySource, isTrackingQuery, key, materializer, 0)
    }

    /** UnbufferedEntityShaper.WithOffset: a fresh offset shaper for TEntity,
        moved by `offset`. */
    function WithOffset(offset: Int32): (r: OffsetEntityShaper)
      ensures r.entityType == entityType
      ensures r.querySource == querySource && r.isTrackingQuery == isTrackingQuery
      ensures r.key == key && r.materializer == materializer
      ensures r.valueBufferOffset == offset
    {
      OffsetEntityShaper(entityType, querySource, isTrackingQuery, key, materializer, 0).AddOffset(offset)
    }
  }

  // ---------------------------------------------------------------------------
  // Properties
  // ---------------------------------------------------------------------------

  /** In a tracking query, a tracked entry wins: its entity is returned, whatever
      the value buffer, and the materializer plays no part. */
  lemma TrackedEntryWins(s: UnbufferedEntityShaper, queryContext: QueryContext, valueBuffer: ValueBuffer, other: Materializer)
    requires s.isTrackingQuery && s.Lookup(queryContext).Some?
    ensures s.Shape(queryContext, valueBuffer) == s.Lookup(queryContext).value.entity
    ensures s.Shape(queryContext, valueBuffer) == s.(materializer := other).Shape(queryContext, valueBuffer)
  {
  }

  /** Otherwise (a non-tracking query, or nothing tracked) the entity is
      materialized from exactly the given value buffer and the query context's
      DbContext. */
  lemma MaterializedOtherwise(s: UnbufferedEntityShaper, queryContext: QueryContext, valueBuffer: ValueBuffer)
    requires !s.isTrackingQuery || s.Lookup(queryContext).None?
    ensures s.Shape(queryContext, valueBuffer) == s.materializer(MaterializationContext(valueBuffer, queryContext.context))
  {
  }

  /** Shape returns either the tracked entity or a materialized one, never
      anything else. */
  lemma ShapeIsTrackedOrMaterialized(s: UnbufferedEntityShaper, queryContext: QueryContext, valueBuffer: ValueBuffer)
    ensures var r := s.Shape(queryContext, valueBuffer);
            || (s.isTrackingQuery && s.Lookup(queryContext) == Some(InternalEntityEntry(r)))
            || r == s.materializer(MaterializationContext(valueBuffer, queryContext.context))
  {
  }

  /** A non-tracking query never consults the state manager: any other state
      manager gives the same entity. */
  lemma NoTrackingIgnoresStateManager(s: UnbufferedEntityShaper, queryContext: QueryContext, valueBuffer: ValueBuffer, other: StateManager)
    requires !s.isTrackingQuery
    ensures s.Shape(queryContext, valueBuffer) == s.Shape(queryContext.(stateManager := other), valueBuffer)
  {
  }

  /** The lookup is made with an empty key-value array, so whether a tracked
      entry is found does not depend on the row being shaped. */
  lemma LookupIgnoresValueBuffer(s: UnbufferedEntityShaper, queryContext: QueryContext, vb1: ValueBuffer, vb2: ValueBuffer)
    requires s.isTrackingQuery && s.Lookup(queryContext).Some?
    ensures s.Shape(queryContext, vb1) == s.Shape(queryContext, vb2)
  {
  }
}
