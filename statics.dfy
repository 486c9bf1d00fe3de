/**
 The class-level ("static") configuration of the blocking rule kind. A
 subclass first sees its base class's static properties through inheritance;
 the blocking rule then replaces them with its own, each built on top of the
 inherited one, and registers itself with the rule factory under its kind name.
 */
module RuleStatics {

  /**
   A value in a rule kind's default details. Defaults other than strings come
   from the base class and are only carried along here.
   */
  datatype DetailValue = Text(s: string) | Other(id: nat)

  /** The detail this rule kind adds, and the setter that applies it. */
  const RedirectUrlKey: string := "redirectUrl"
  const RedirectUrlSetter: string := "setRedirectUrl"

  /** The kind name under which the factory knows blocking rules. */
  const BlockingRulesKind: string := "blockingRules"

  /** `{...inherited, redirectUrl: ''}`: every inherited default stays, `redirectUrl` defaults to empty. */
  function LayerDetailsDefault(inherited: map<string, DetailValue>): (r: map<string, DetailValue>)
    ensures r.Keys == inherited.Keys + {RedirectUrlKey}
    ensures r[RedirectUrlKey] == Text("")
    ensures forall k :: k in inherited && k != RedirectUrlKey ==> r[k] == inherited[k]
  {
    inherited[RedirectUrlKey := Text("")]
  }

  /** `{...inherited, redirectUrl: 'setRedirectUrl'}`: every inherited setter stays, the new detail gets its own. */
  function LayerSetters(inherited: map<string, string>): (r: map<string, string>)
    ensures r.Keys == inherited.Keys + {RedirectUrlKey}
    ensures r[RedirectUrlKey] == RedirectUrlSetter
    ensures forall k :: k in inherited && k != RedirectUrlKey ==> r[k] == inherited[k]
  {
    inherited[RedirectUrlKey := RedirectUrlSetter]
  }

  /** A rule kind's static properties, as the class object holds them. */
  class RuleClass {
    var detailsDefault: map<string, DetailValue>
    var setters: map<string, string>
    var extraInfoSpec: array<string>
    /** The live instances of this kind, by identity. */
    var instances: map<nat, object>

    /**
     A subclass of `base` before it declares statics of its own: every static
     property reads through to the base class, the very same list included.
     */
    constructor Inherit(base: RuleClass)
      ensures detailsDefault == base.detailsDefault && setters == base.setters
      ensures extraInfoSpec == base.extraInfoSpec && instances == base.instances
    {
      detailsDefault := base.detailsDefault;
      setters := base.setters;
      extraInfoSpec := base.extraInfoSpec;
      instances := base.instances;
    }

    /**
     The blocking rule's static declarations, in source order: a map of its
     own instances, the layered defaults and setters, and a copy of the
     inherited extra-info list that no longer shares storage with it.
     */
    method DeclareBlockingStatics()
      modifies this
      ensures instances == map[]
      ensures detailsDefault == LayerDetailsDefault(old(detailsDefault))
      ensures setters == LayerSetters(old(setters))
      ensures fresh(extraInfoSpec) && extraInfoSpec[..] == old(extraInfoSpec[..])
    {
      instances := map[];
      detailsDefault := LayerDetailsDefault(detailsDefault);
      setters := LayerSetters(setters);
      var inherited := extraInfoSpec;
      extraInfoSpec := new string[inherited.Length](i reads inherited requires 0 <= i < inherited.Length => inherited[i]);
    }
  }

  /** The rule factory, reduced to its table of kinds. */
  class Factory {
    var kinds: map<string, RuleClass>

    /** Makes `cls` the rule kind known by `kind`. */
    method Register(kind: string, cls: RuleClass)
      modifies this
      ensures kinds == old(kinds)[kind := cls]
    {
      kinds := kinds[kind := cls];
    }
  }

  /**
   Declaring the blocking rule kind: derive it from `base`, declare its
   statics and register it. The base class's own statics are left as they were.
   */
  method DeclareBlockingRule(base: RuleClass, factory: Factory) returns (cls: RuleClass)
    modifies factory
    ensures fresh(cls) && fresh(cls.extraInfoSpec)
    ensures cls.instances == map[]
    ensures cls.detailsDefault == LayerDetailsDefault(base.detailsDefault)
    ensures cls.setters == LayerSetters(base.setters)
    ensures cls.extraInfoSpec[..] == base.extraInfoSpec[..]
    ensures unchanged(base) && unchanged(base.extraInfoSpec)
    ensures factory.kinds == old(factory.kinds)[BlockingRulesKind := cls]
  {
    cls := new RuleClass.Inherit(base);
    cls.DeclareBlockingStatics();
    factory.Register(BlockingRulesKind, cls);
  }
}
