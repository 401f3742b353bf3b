/**
 * The action registry of pkg/dvmodules/dvactions.go: named action processors
 * registered once, actions fired by their type, and the end-point actions of a
 * server grouped into one pool per HTTP verb.
 */
module DvModules {
  import opened Wrappers
  import opened Text
  import opened Grouping

  /** A configured action: its name, url mask, processor type and HTTP verb. */
  datatype DvAction = DvAction(Name: string, Url: string, Typ: string, Method: string)

  /** What a processor sees of the request it is given. */
  datatype RequestView = RequestView(Action: Option<DvAction>, UrlParameters: map<string, string>, Method: string)

  /** An action processor; what it does to the request besides answering is not modelled. */
  type Processor = RequestView -> bool

  /** The parts of dvcontext.RequestContext the actions read or write. */
  class RequestContext {
    var Action: Option<DvAction>
    var UrlParameters: map<string, string>
    var Method: string

    function View(): RequestView
      reads this
    {
      RequestView(Action, UrlParameters, Method)
    }

    constructor (verb: string)
      ensures Action == None && UrlParameters == map[] && Method == verb
    {
      Action, UrlParameters, Method := None, map[], verb;
    }
  }

  /** The package-level map registeredActionProcessors, with the operations that use it. */
  class ActionRegistry {
    var processors: map<string, Processor>

    constructor ()
      ensures processors == map[]
    {
      processors := map[];
    }

    /**
     * RegisterActionProcessor: a new name is stored and answered with true; a taken
     * name is left alone, answered with false when `silent` and otherwise with the
     * message the source panics with.
     */
    method RegisterActionProcessor(name: string, proc: Processor, silent: bool) returns (r: Result<bool, string>)
      modifies this
      ensures name !in old(processors) ==> r == Success(true) && processors == old(processors)[name := proc]
      ensures name in old(processors) ==> processors == old(processors)
      ensures name in old(processors) && silent ==> r == Success(false)
      ensures name in old(processors) && !silent ==> r == Failure("Processor with name " + name + " already registered")
    {
      if name in processors {
        if silent {
          return Success(false);
        }
        return Failure("Processor with name " + name + " already registered");
      }
      processors := processors[name := proc];
      r := Success(true);
    }

    /**
     * FireAction: the action is always recorded in the request; an action whose type
     * has no processor fails, otherwise the processor's answer is returned.
     */
    method FireAction(action: DvAction, request: RequestContext) returns (ok: bool)
      modifies request`Action
      ensures request.Action == Some(action)
      ensures action.Typ !in processors ==> !ok
      ensures action.Typ in processors ==> ok == processors[action.Typ](request.View())
    {
      request.Action := Some(action);
      if action.Typ !in processors {
        return false;
      }
      ok := processors[action.Typ](request.View());
    }

    /** urlActionVerifier: the url parameters found by the matcher are set before the action is fired. */
    method UrlActionVerifier(request: RequestContext, urlKeys: map<string, string>, action: DvAction) returns (ok: bool)
      modifies request`Action, request`UrlParameters
      ensures request.UrlParameters == urlKeys && request.Action == Some(action)
      ensures action.Typ !in processors ==> !ok
      ensures action.Typ in processors ==> ok == processors[action.Typ](RequestView(Some(action), urlKeys, request.Method))
    {
      request.UrlParameters := urlKeys;
      ok := FireAction(action, request);
    }
  }

  /** Registering and then firing: an action of a newly registered type reaches that processor. */
  method RegisterThenFire(registry: ActionRegistry, proc: Processor, action: DvAction, request: RequestContext)
    returns (ok: bool)
    requires action.Typ !in registry.processors
    modifies registry, request`Action
    ensures ok == proc(RequestView(Some(action), request.UrlParameters, request.Method))
  {
    var registered := registry.RegisterActionProcessor(action.Typ, proc, false);
    ok := registry.FireAction(action, request);
  }

  // -------------------------------------------------------- end-point actions

  /** One entry of a url pool: the url mask and the action it leads to, kept in registration order. */
  datatype Registration = Registration(Url: string, Action: DvAction)

  /** The verb an action is served under: trimmed and upper-cased, GET when blank. */
  function MethodKey(a: DvAction): string {
    var m := ToUpper(TrimSpace(a.Method));
    if |m| == 0 then "GET" else m
  }

  /** The key computation of the registration loop: trim, upper-case, default to GET. */
  method VerbOf(action: DvAction) returns (verb: string)
    ensures verb == MethodKey(action)
  {
    verb := ToUpper(TrimSpace(action.Method));
    if |verb| == 0 {
      verb := "GET";
    }
  }

  function RegistrationOf(a: DvAction): Registration {
    Registration(a.Url, a)
  }

  /** The handler getActionHandlerFunc returns: the url pool of each verb. */
  datatype ActionHandler = ActionHandler(Base: map<string, seq<Registration>>)

  /**
   * RegisterEndPointActions: no handler for no actions; otherwise one pool per verb
   * key, created on first use, each action registered into its key's pool in order.
   */
  method RegisterEndPointActions(actions: seq<DvAction>) returns (handler: Option<ActionHandler>)
    ensures |actions| == 0 <==> handler.None?
    ensures handler.Some? ==> handler.value.Base == Grouped(actions, MethodKey, RegistrationOf)
  {
    if |actions| == 0 {
      return None;
    }
    var base := RegisterIntoPools(actions);
    handler := Some(ActionHandler(base));
  }

  /** The registration loop of RegisterEndPointActions: each action appended to its verb's pool. */
  method RegisterIntoPools(actions: seq<DvAction>) returns (base: map<string, seq<Registration>>)
    ensures base == Grouped(actions, MethodKey, RegistrationOf)
  {
    base := map[];
    for i := 0 to |actions|
      invariant base == Grouped(actions[..i], MethodKey, RegistrationOf)
    {
      var action := actions[i];
      var verb := VerbOf(action);
      var pool := if verb in base then base[verb] else [];
      base := base[verb := pool + [Registration(action.Url, action)]];
      GroupedStep(actions, i, MethodKey, RegistrationOf);
    }
    assert actions[..|actions|] == actions;
  }

  /** The pool a request is looked up in: by its verb upper-cased but not trimmed. */
  function LookupPool(handler: ActionHandler, verb: string): (pool: Option<seq<Registration>>)
    ensures pool.Some? <==> ToUpper(verb) in handler.Base
  {
    var key := ToUpper(verb);
    if key in handler.Base then Some(handler.Base[key]) else None
  }

  /**
   * The handler getActionHandlerFunc returns: a request whose verb has no pool is
   * refused; otherwise the answer is what the url matcher, given as `search`, finds
   * in that pool for the request's urls.
   */
  function HandleRequest(handler: ActionHandler, verb: string, search: seq<Registration> -> bool): (ok: bool)
    ensures LookupPool(handler, verb).None? ==> !ok
  {
    match LookupPool(handler, verb)
    case None => false
    case Some(pool) => search(pool)
  }

  /** A request whose verb upper-cases to an action's key finds a pool holding that action. */
  lemma ActionFoundUnderItsMethod(actions: seq<DvAction>, j: nat, verb: string)
    requires j < |actions| && ToUpper(verb) == MethodKey(actions[j])
    ensures var pool := LookupPool(ActionHandler(Grouped(actions, MethodKey, RegistrationOf)), verb);
      pool.Some? && RegistrationOf(actions[j]) in pool.value
  {
    GroupContains(actions, MethodKey, RegistrationOf, j);
  }

  /** Every pool holds only actions whose verb key is the pool's, and is never empty. */
  lemma PoolsHoldTheirMethod(actions: seq<DvAction>, key: string)
    requires key in Grouped(actions, MethodKey, RegistrationOf)
    ensures |Grouped(actions, MethodKey, RegistrationOf)[key]| > 0
    ensures forall r :: r in Grouped(actions, MethodKey, RegistrationOf)[key] ==> MethodKey(r.Action) == key
  {
    GroupOfPresentKey(actions, MethodKey, RegistrationOf, key);
    GroupMembers(actions, key);
  }

  lemma {:induction false} GroupMembers(actions: seq<DvAction>, key: string)
    ensures forall r :: r in Group(actions, MethodKey, RegistrationOf, key) ==> MethodKey(r.Action) == key
    decreases |actions|
  {
    if |actions| > 0 {
      GroupMembers(actions[..|actions| - 1], key);
    }
  }

  /** A verb key never starts with white space. */
  lemma MethodKeyHasNoLeadingSpace(a: DvAction)
    ensures |MethodKey(a)| > 0 && !IsSpace(MethodKey(a)[0])
  {
    var t := TrimSpace(a.Method);
    if |t| > 0 {
      assert ToUpper(t)[0] == UpperChar(t[0]);
    } else {
      assert MethodKey(a)[0] == 'G';
    }
  }

  /** The request verb is not trimmed: one that starts with white space finds no pool. */
  lemma UntrimmedMethodFindsNoPool(actions: seq<DvAction>, verb: string)
    requires |verb| > 0 && IsSpace(verb[0])
    ensures LookupPool(ActionHandler(Grouped(actions, MethodKey, RegistrationOf)), verb).None?
  {
    var base := Grouped(actions, MethodKey, RegistrationOf);
    assert IsSpace(ToUpper(verb)[0]);
    if ToUpper(verb) in base {
      var j :| 0 <= j < |actions| && MethodKey(actions[j]) == ToUpper(verb);
      MethodKeyHasNoLeadingSpace(actions[j]);
    }
  }

  /** "get" upper-cases to "GET". */
  lemma UpperGet()
    ensures ToUpper("get") == "GET"
  {
    var up := ToUpper("get");
    assert up[0] == 'G' && up[1] == 'E' && up[2] == 'T';
  }

  /** An action declared with verb " get " is served under GET. */
  lemma PaddedGetKey(a: DvAction)
    requires a.Method == " get "
    ensures MethodKey(a) == "GET"
  {
    assert " get " == [' '] + "get" + [' '];
    PaddedTrim("get");
    UpperGet();
  }

  /** An action declared with verb " get " is served to a request with verb "get". */
  lemma LowerCaseGetFindsPaddedGet(url: string, name: string, typ: string)
    ensures var a := DvAction(name, url, typ, " get ");
      var pool := LookupPool(ActionHandler(Grouped([a], MethodKey, RegistrationOf)), "get");
      pool.Some? && RegistrationOf(a) in pool.value
  {
    var a := DvAction(name, url, typ, " get ");
    PaddedGetKey(a);
    UpperGet();
    ActionFoundUnderItsMethod([a], 0, "get");
  }
}
