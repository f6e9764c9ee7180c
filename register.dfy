/**
 * The handler registry (`MacroFeatureRegister`): document -> (feature -> handler), plus
 * document -> lifecycle manager. It creates a handler lazily on the first request for a
 * (document, feature) pair, initialises it, and unloads and evicts it when the lifecycle manager
 * reports the feature or its whole document disposed.
 *
 * Host documents, features and handler instances are modelled by their identities. The register
 * creates handler instances itself (`Activator.CreateInstance`), which the model does by taking
 * the next unused identity. How many times each handler received `Init` and `Unload` is kept
 * in ghost counters, so that "exactly once" is stated as a count.
 */
module Register {
  import opened Wrappers

  type ModelId = int
  type FeatureId = int
  type HandlerId = int
  type AppId = int

  /** A handler type as reflection describes it. */
  datatype HandlerType = HandlerType(fullName: string, implementsHandler: bool, hasParameterlessConstructor: bool)

  /** The configuration errors the constructor throws. */
  datatype ConfigError =
    | MustImplementHandler(typeFullName: string)           // InvalidCastException
    | NoParameterlessConstructor(typeFullName: string)     // InvalidOperationException

  /** The per-document lifecycle manager, created with the document and the register's base name. */
  datatype LifecycleManager = LifecycleManager(model: ModelId, baseName: string)

  /** The slot a live handler occupies. */
  datatype Slot = Slot(model: ModelId, feature: FeatureId)

  /** The checks made before any state exists; the cast check comes first. */
  function CheckHandlerType(t: HandlerType): (r: Option<ConfigError>)
    ensures r.None? <==> t.implementsHandler && t.hasParameterlessConstructor
    ensures !t.implementsHandler ==> r == Some(MustImplementHandler(t.fullName))
    ensures t.implementsHandler && !t.hasParameterlessConstructor ==> r == Some(NoParameterlessConstructor(t.fullName))
  {
    if !t.implementsHandler then Some(MustImplementHandler(t.fullName))
    else if !t.hasParameterlessConstructor then Some(NoParameterlessConstructor(t.fullName))
    else None
  }

  /** The register's slots and the owner of each live handler describe each other. */
  ghost predicate SlotsMatch(register: map<ModelId, map<FeatureId, HandlerId>>, owner: map<HandlerId, Slot>) {
    && (forall h | h in owner ::
          owner[h].model in register && owner[h].feature in register[owner[h].model]
          && register[owner[h].model][owner[h].feature] == h)
    && (forall m, f | m in register && f in register[m] ::
          register[m][f] in owner && owner[register[m][f]] == Slot(m, f))
  }

  /** Handlers stored under one document are exactly the live handlers whose slot is in it. */
  lemma HandlersOfModel(register: map<ModelId, map<FeatureId, HandlerId>>, owner: map<HandlerId, Slot>, m: ModelId, h: HandlerId)
    requires SlotsMatch(register, owner)
    ensures (h in owner && owner[h].model == m) <==> (m in register && h in register[m].Values)
  {
    if m in register && h in register[m].Values {
      var features := register[m];
      if !(exists f :: f in features && features[f] == h) {
        assert false;
      }
      var f :| f in features && features[f] == h;
    }
  }

  /** Storing a new handler in a free slot keeps slots and owners in step. */
  lemma SlotsMatchAfterStore(register: map<ModelId, map<FeatureId, HandlerId>>, owner: map<HandlerId, Slot>,
                             m: ModelId, f: FeatureId, h: HandlerId)
    requires SlotsMatch(register, owner)
    requires h !in owner && m in register && f !in register[m]
    ensures SlotsMatch(register[m := register[m][f := h]], owner[h := Slot(m, f)])
  {
  }

  /** Evicting one handler keeps slots and owners in step. */
  lemma SlotsMatchAfterEvict(register: map<ModelId, map<FeatureId, HandlerId>>, owner: map<HandlerId, Slot>,
                             m: ModelId, f: FeatureId)
    requires SlotsMatch(register, owner)
    requires m in register && f in register[m]
    ensures SlotsMatch(register[m := register[m] - {f}], owner - {register[m][f]})
  {
  }

  /** Dropping a whole document keeps slots and owners in step. */
  lemma SlotsMatchAfterDrop(register: map<ModelId, map<FeatureId, HandlerId>>, owner: map<HandlerId, Slot>, m: ModelId)
    requires SlotsMatch(register, owner)
    ensures SlotsMatch(register - {m}, OwnersOutside(owner, m))
  {
  }

  /**
   * A set that is not empty has a member to pick. Set-theory plumbing only: it makes the
   * existence needed by `:|` explicit where the register picks a handler to unload.
   */
  lemma NotEmptyHasMember(s: set<int>)
    requires s != {}
    ensures exists x :: x in s
  {
    if !(exists x :: x in s) {
      EmptyIfNoMember(s);
      assert false;
    }
  }

  /** A set without members is the empty set. Plumbing for `NotEmptyHasMember` and `Dispose`. */
  lemma EmptyIfNoMember(s: set<int>)
    requires forall x :: x !in s
    ensures s == {}
  {
    assert forall x :: x in s <==> x in {};
  }

  /** The register's invariant on its state; see `MacroFeatureRegister.Valid`. */
  ghost predicate Consistent(register: map<ModelId, map<FeatureId, HandlerId>>, lifecycleManagers: map<ModelId, LifecycleManager>,
                             baseName: string, owner: map<HandlerId, Slot>, nextId: nat,
                             initCounts: seq<nat>, unloadCounts: seq<nat>)
  {
    && register.Keys == lifecycleManagers.Keys
    && (forall m | m in lifecycleManagers :: lifecycleManagers[m] == LifecycleManager(m, baseName))
    && SlotsMatch(register, owner)
    && (forall h | h in owner :: 0 <= h < nextId)
    && |initCounts| == nextId && |unloadCounts| == nextId
    && (forall h | 0 <= h < nextId :: initCounts[h] == 1 && unloadCounts[h] == (if h in owner then 0 else 1))
  }

  /** The live handlers that remain once a document is dropped. */
  ghost function OwnersOutside(owner: map<HandlerId, Slot>, m: ModelId): (r: map<HandlerId, Slot>)
    ensures forall h :: h in r <==> h in owner && owner[h].model != m
    ensures forall h | h in r :: r[h] == owner[h]
  {
    map h | h in owner && owner[h].model != m :: owner[h]
  }

  /**
   * Dropping a document whose handlers have each been unloaded once more keeps the register
   * consistent.
   */
  lemma ConsistentAfterDrop(register: map<ModelId, map<FeatureId, HandlerId>>, lifecycleManagers: map<ModelId, LifecycleManager>,
                            baseName: string, owner: map<HandlerId, Slot>, nextId: nat,
                            initCounts: seq<nat>, unloadCounts: seq<nat>, unloadCounts': seq<nat>, m: ModelId)
    requires Consistent(register, lifecycleManagers, baseName, owner, nextId, initCounts, unloadCounts)
    requires |unloadCounts'| == nextId
    requires forall h | 0 <= h < nextId :: unloadCounts'[h] == unloadCounts[h] + (if h in owner && owner[h].model == m then 1 else 0)
    ensures Consistent(register - {m}, lifecycleManagers - {m}, baseName, OwnersOutside(owner, m), nextId, initCounts, unloadCounts')
  {
    SlotsMatchAfterDrop(register, owner, m);
  }

  class MacroFeatureRegister {
    /** `m_Register`: document -> (feature -> handler). */
    var register: map<ModelId, map<FeatureId, HandlerId>>
    /** `m_LifecycleManagers`: document -> its lifecycle manager. */
    var lifecycleManagers: map<ModelId, LifecycleManager>
    const baseName: string
    const handlerType: HandlerType
    /** The handlers created so far are exactly the identities below this one. */
    var nextId: nat
    /** How many times `Init` was called on each handler created so far. */
    ghost var initCounts: seq<nat>
    /** How many times `Unload` was called on each handler created so far. */
    ghost var unloadCounts: seq<nat>
    /** The slot of every live handler. */
    ghost var owner: map<HandlerId, Slot>

    /**
     * The register's invariant: both maps know the same documents, each with its own lifecycle
     * manager; every live handler sits in exactly one slot; every handler ever created was
     * initialised exactly once, and unloaded once if it was evicted and never if it is still live.
     */
    ghost predicate Valid()
      reads this
    {
      Consistent(register, lifecycleManagers, baseName, owner, nextId, initCounts, unloadCounts)
    }

    /** The register proper, for a handler type that passed `CheckHandlerType`. */
    constructor (baseName: string, handlerType: HandlerType)
      requires CheckHandlerType(handlerType).None?
      ensures Valid()
      ensures this.baseName == baseName && this.handlerType == handlerType
      ensures register == map[] && lifecycleManagers == map[] && nextId == 0
    {
      this.handlerType := handlerType;
      this.baseName := baseName;
      register := map[];
      lifecycleManagers := map[];
      nextId := 0;
      initCounts := [];
      unloadCounts := [];
      owner := map[];
    }

    /** `handler.Init(app, model, feat)`: only ever called on a handler already stored in its slot. */
    method InitHandler(h: HandlerId, app: AppId, model: ModelId, feat: FeatureId)
      requires model in register && feat in register[model] && register[model][feat] == h
      requires 0 <= h < |initCounts|
      modifies this`initCounts
      ensures initCounts == old(initCounts)[h := old(initCounts)[h] + 1]
    {
      initCounts := initCounts[h := initCounts[h] + 1];
    }

    /** `handler.Unload()`: only ever called on a live handler. */
    method UnloadHandler(h: HandlerId)
      requires h in owner && 0 <= h < |unloadCounts|
      modifies this`unloadCounts
      ensures unloadCounts == old(unloadCounts)[h := old(unloadCounts)[h] + 1]
    {
      unloadCounts := unloadCounts[h := unloadCounts[h] + 1];
    }

    /**
     * `EnsureFeatureRegistered`: the stored handler of (model, feat) if there is one; otherwise a
     * new handler, stored and then initialised, reported with `isNew`. A document seen for the
     * first time gets its feature map and its lifecycle manager.
     */
    method EnsureFeatureRegistered(app: AppId, model: ModelId, feat: FeatureId) returns (handler: HandlerId, isNew: bool)
      requires Valid()
      modifies this
      ensures Valid()
      ensures model in register && feat in register[model] && register[model][feat] == handler
      ensures isNew <==> !(model in old(register) && feat in old(register)[model])
      ensures !isNew ==> handler == old(register)[model][feat]
      ensures !isNew ==> register == old(register) && nextId == old(nextId) && owner == old(owner)
                         && initCounts == old(initCounts) && unloadCounts == old(unloadCounts)
      ensures isNew ==> handler == old(nextId) && nextId == old(nextId) + 1
      ensures isNew ==> register == old(register)[model := (if model in old(register) then old(register)[model] else map[])[feat := handler]]
      ensures isNew ==> initCounts == old(initCounts) + [1] && unloadCounts == old(unloadCounts) + [0]
      ensures isNew ==> owner == old(owner)[handler := Slot(model, feat)]
      ensures lifecycleManagers == old(lifecycleManagers)[model := LifecycleManager(model, baseName)]
      ensures model in old(lifecycleManagers) ==> lifecycleManagers == old(lifecycleManagers)
    {
      isNew := false;

      if model !in register {
        AddModel(model);
      }
      var featsDict := register[model];

      if feat !in featsDict {
        handler := AddHandler(app, model, feat);
        isNew := true;
      } else {
        handler := featsDict[feat];
      }
    }

    /** A document seen for the first time: an empty feature map and a new lifecycle manager. */
    method AddModel(model: ModelId)
      requires Valid() && model !in register
      modifies this`register, this`lifecycleManagers
      ensures Valid()
      ensures register == old(register)[model := map[]]
      ensures lifecycleManagers == old(lifecycleManagers)[model := LifecycleManager(model, baseName)]
    {
      register := register[model := map[]];
      lifecycleManagers := lifecycleManagers[model := LifecycleManager(model, baseName)];
    }

    /** A pair seen for the first time: create the handler, store it, then initialise it. */
    method AddHandler(app: AppId, model: ModelId, feat: FeatureId) returns (handler: HandlerId)
      requires Valid() && model in register && feat !in register[model]
      modifies this`register, this`nextId, this`initCounts, this`unloadCounts, this`owner
      ensures Valid()
      ensures handler == old(nextId) && nextId == old(nextId) + 1
      ensures register == old(register)[model := old(register)[model][feat := handler]]
      ensures initCounts == old(initCounts) + [1] && unloadCounts == old(unloadCounts) + [0]
      ensures owner == old(owner)[handler := Slot(model, feat)]
    {
      handler := nextId;                       // Activator.CreateInstance(m_HandlerType)
      nextId := nextId + 1;
      initCounts := initCounts + [0];
      unloadCounts := unloadCounts + [0];
      SlotsMatchAfterStore(register, owner, model, feat, handler);
      register := register[model := register[model][feat := handler]];
      owner := owner[handler := Slot(model, feat)];
      InitHandler(handler, app, model, feat);
    }

    /** `DestroyInRegister(model, feat)`: unload that one handler and evict it; a missing entry changes nothing. */
    method DestroyFeatureInRegister(model: ModelId, feat: FeatureId)
      requires Valid()
      modifies this
      ensures Valid()
      ensures lifecycleManagers == old(lifecycleManagers) && nextId == old(nextId) && initCounts == old(initCounts)
      ensures model in old(register) && feat in old(register)[model] ==>
                var h := old(register)[model][feat];
                && register == old(register)[model := old(register)[model] - {feat}]
                && unloadCounts == old(unloadCounts)[h := 1]
                && owner == old(owner) - {h}
      ensures !(model in old(register) && feat in old(register)[model]) ==>
                register == old(register) && unloadCounts == old(unloadCounts) && owner == old(owner)
    {
      if model in register {
        var modelDict := register[model];
        if feat in modelDict {
          var h := modelDict[feat];
          UnloadHandler(h);
          SlotsMatchAfterEvict(register, owner, model, feat);
          register := register[model := modelDict - {feat}];
          owner := owner - {h};
        } else {
          // Debug.Assert(false, "Handler is not registered")
        }
      } else {
        // Debug.Assert(false, "Model is not registered")
      }
    }

    /**
     * `DestroyInRegister(model)`: unload every handler of the document exactly once, in any order,
     * and drop the document from both maps; an unknown document changes nothing.
     */
    method DestroyModelInRegister(model: ModelId)
      requires Valid()
      modifies this
      ensures Valid()
      ensures register == old(register) - {model} && lifecycleManagers == old(lifecycleManagers) - {model}
      ensures nextId == old(nextId) && initCounts == old(initCounts) && |unloadCounts| == |old(unloadCounts)|
      ensures forall h | 0 <= h < nextId :: unloadCounts[h] ==
                old(unloadCounts)[h] + (if model in old(register) && h in old(register)[model].Values then 1 else 0)
      ensures forall h :: h in owner <==> h in old(owner) && old(owner)[h].model != model
    {
      if model in lifecycleManagers {
        lifecycleManagers := lifecycleManagers - {model};
      } else {
        // Debug.Assert(false, "Model is not registered")
      }

      if model in register {
        UnloadModelHandlers(model);
        ConsistentAfterDrop(old(register), old(lifecycleManagers), baseName, owner, nextId, initCounts, old(unloadCounts), unloadCounts, model);
        register := register - {model};
        owner := OwnersOutside(owner, model);
      } else {
        // Debug.Assert(false, "Model is not registered")
      }

      forall h | 0 <= h < nextId
        ensures unloadCounts[h] ==
                  old(unloadCounts)[h] + (if model in old(register) && h in old(register)[model].Values then 1 else 0)
      {
        HandlersOfModel(old(register), old(owner), model, h);
      }
    }

    /** The `foreach` over the document's handlers: one `Unload` for each, in any order. */
    method UnloadModelHandlers(model: ModelId)
      requires SlotsMatch(register, owner) && model in register
      requires (forall h | h in owner :: 0 <= h < nextId) && |unloadCounts| == nextId
      modifies this`unloadCounts
      ensures |unloadCounts| == nextId
      ensures forall h | 0 <= h < nextId :: unloadCounts[h] ==
                old(unloadCounts)[h] + (if h in owner && owner[h].model == model then 1 else 0)
    {
      var modelDict := register[model];
      var pending := modelDict.Keys;
      while pending != {}
        invariant pending <= modelDict.Keys
        invariant |unloadCounts| == nextId
        invariant forall h | 0 <= h < nextId :: unloadCounts[h] ==
                    old(unloadCounts)[h] + (if h in owner && owner[h].model == model && owner[h].feature !in pending then 1 else 0)
        decreases pending
      {
        NotEmptyHasMember(pending);
        var feat :| feat in pending;
        var h0 := modelDict[feat];
        assert owner[h0] == Slot(model, feat);
        UnloadHandler(h0);
        pending := pending - {feat};
      }
    }

    /** The lifecycle manager's `FeatureDisposed` event. */
    method OnFeatureDisposed(model: ModelId, feat: FeatureId)
      requires Valid()
      modifies this
      ensures Valid()
      ensures lifecycleManagers == old(lifecycleManagers) && nextId == old(nextId) && initCounts == old(initCounts)
      ensures model in old(register) && feat in old(register)[model] ==>
                && register == old(register)[model := old(register)[model] - {feat}]
                && unloadCounts == old(unloadCounts)[old(register)[model][feat] := 1]
      ensures !(model in old(register) && feat in old(register)[model]) ==>
                register == old(register) && unloadCounts == old(unloadCounts)
    {
      DestroyFeatureInRegister(model, feat);
    }

    /** The lifecycle manager's `ModelDisposed` event. */
    method OnModelDisposed(model: ModelId)
      requires Valid()
      modifies this
      ensures Valid()
      ensures register == old(register) - {model} && lifecycleManagers == old(lifecycleManagers) - {model}
      ensures nextId == old(nextId) && initCounts == old(initCounts) && |unloadCounts| == |old(unloadCounts)|
      ensures forall h | 0 <= h < nextId :: unloadCounts[h] ==
                old(unloadCounts)[h] + (if model in old(register) && h in old(register)[model].Values then 1 else 0)
    {
      DestroyModelInRegister(model);
    }

    /**
     * `Dispose`: the document-level teardown for every tracked document, then an empty register.
     * Every handler live before gets exactly one `Unload`, so every handler this register ever
     * created has then been unloaded exactly once.
     *
     * The source enumerates `m_Register.Keys` while each teardown removes from `m_Register`; a
     * .NET Framework dictionary enumerator refuses to continue after such a removal. The model
     * iterates over a snapshot of the keys, which is the evident intent.
     */
    method Dispose()
      requires Valid()
      modifies this
      ensures Valid()
      ensures register == map[] && lifecycleManagers == map[] && owner == map[]
      ensures nextId == old(nextId) && initCounts == old(initCounts) && |unloadCounts| == |old(unloadCounts)|
      ensures forall h | 0 <= h < nextId :: unloadCounts[h] == old(unloadCounts)[h] + (if h in old(owner) then 1 else 0)
      ensures forall h | 0 <= h < nextId :: unloadCounts[h] == 1
    {
      var models := register.Keys;
      while models != {}
        invariant Valid()
        invariant register.Keys == models
        invariant nextId == old(nextId) && initCounts == old(initCounts) && |unloadCounts| == nextId
        invariant forall h | 0 <= h < nextId :: unloadCounts[h] == old(unloadCounts)[h] + (if h in old(owner) && h !in owner then 1 else 0)
        decreases models
      {
        NotEmptyHasMember(models);
        var m :| m in models;
        ghost var ownerBefore := owner;
        ghost var registerBefore := register;
        DestroyModelInRegister(m);
        models := models - {m};
        forall h | 0 <= h < nextId
          ensures unloadCounts[h] == old(unloadCounts)[h] + (if h in old(owner) && h !in owner then 1 else 0)
        {
          HandlersOfModel(registerBefore, ownerBefore, m, h);
        }
      }
      register := map[];                       // m_Register.Clear()
      assert forall h :: h !in owner;
      EmptyIfNoMember(owner.Keys);
    }
  }

  /** Construction: the handler type is validated before any state exists. */
  method Create(baseName: string, handlerType: HandlerType) returns (r: Result<MacroFeatureRegister, ConfigError>)
    ensures r.Failure? <==> CheckHandlerType(handlerType).Some?
    ensures r.Failure? ==> r.error == CheckHandlerType(handlerType).value
    ensures r.Success? ==> (fresh(r.value) && r.value.Valid() && r.value.register == map[]
              && r.value.lifecycleManagers == map[] && r.value.nextId == 0
              && r.value.baseName == baseName && r.value.handlerType == handlerType)
  {
    var err := CheckHandlerType(handlerType);
    if err.Some? {
      r := Failure(err.value);
    } else {
      var reg := new MacroFeatureRegister(baseName, handlerType);
      r := Success(reg);
    }
  }
}

/** Scenarios from the register's documented behaviour, proved for every register state. */
module RegisterScenarios {
  import opened Register

  /**
   * Asking twice for the same pair returns the same handler; only the first call can report
   * `isNew`; `Init` runs once over both calls (and only if the pair was new).
   */
  method RegisterTwice(r: MacroFeatureRegister, app: AppId, model: ModelId, feat: FeatureId)
    returns (first: HandlerId, second: HandlerId, firstIsNew: bool, secondIsNew: bool)
    requires r.Valid()
    modifies r
    ensures r.Valid()
    ensures first == second && !secondIsNew
    ensures firstIsNew <==> !(model in old(r.register) && feat in old(r.register)[model])
    ensures firstIsNew ==> first == old(r.nextId) && r.initCounts == old(r.initCounts) + [1]
    ensures !firstIsNew ==> r.initCounts == old(r.initCounts)
    ensures 0 <= first < r.nextId && r.initCounts[first] == 1 && r.unloadCounts[first] == 0
  {
    first, firstIsNew := r.EnsureFeatureRegistered(app, model, feat);
    second, secondIsNew := r.EnsureFeatureRegistered(app, model, feat);
  }

  /**
   * After a feature is disposed, asking for it again creates a fresh handler; the old one was
   * unloaded exactly once.
   */
  method ReRegisterAfterFeatureDisposed(r: MacroFeatureRegister, app: AppId, model: ModelId, feat: FeatureId)
    returns (evicted: HandlerId, created: HandlerId, isNew: bool)
    requires r.Valid() && model in r.register && feat in r.register[model]
    modifies r
    ensures r.Valid()
    ensures evicted == old(r.register)[model][feat]
    ensures isNew && created == old(r.nextId) && created != evicted
    ensures 0 <= evicted < created < r.nextId
    ensures r.unloadCounts[evicted] == 1 && r.initCounts[evicted] == 1
    ensures r.initCounts[created] == 1 && r.unloadCounts[created] == 0
    ensures model in r.register && feat in r.register[model] && r.register[model][feat] == created
  {
    evicted := r.register[model][feat];
    r.OnFeatureDisposed(model, feat);
    created, isNew := r.EnsureFeatureRegistered(app, model, feat);
  }

  /** Disposing twice: the second teardown finds nothing to unload. */
  method DisposeTwice(r: MacroFeatureRegister)
    requires r.Valid()
    modifies r
    ensures r.Valid() && r.register == map[] && r.lifecycleManagers == map[]
    ensures r.nextId == old(r.nextId) && |r.unloadCounts| == |old(r.unloadCounts)|
    ensures forall h | 0 <= h < r.nextId :: r.unloadCounts[h] == old(r.unloadCounts)[h] + (if h in old(r.owner) then 1 else 0)
  {
    r.Dispose();
    ghost var afterFirst := r.unloadCounts;
    r.Dispose();
    assert r.unloadCounts == afterFirst;
  }

  /**
   * Two features of one document, then the document disposed: the two handlers are distinct,
   * each is unloaded exactly once, and the document is gone from both maps.
   */
  method TwoFeaturesThenModelDisposed(r: MacroFeatureRegister, app: AppId, model: ModelId, f1: FeatureId, f2: FeatureId)
    returns (h1: HandlerId, h2: HandlerId)
    requires r.Valid() && f1 != f2
    modifies r
    ensures r.Valid()
    ensures h1 != h2 && 0 <= h1 < r.nextId && 0 <= h2 < r.nextId
    ensures r.unloadCounts[h1] == 1 && r.unloadCounts[h2] == 1
    ensures model !in r.register && model !in r.lifecycleManagers
  {
    var isNew;
    h1, isNew := r.EnsureFeatureRegistered(app, model, f1);
    h2, isNew := r.EnsureFeatureRegistered(app, model, f2);
    HandlersOfModel(r.register, r.owner, model, h1);
    HandlersOfModel(r.register, r.owner, model, h2);
    r.OnModelDisposed(model);
  }

}
