/** The registry of node types: it refuses duplicates and only grows. */
module Registry {
  import opened Outcomes

  datatype AlreadyRegistered = AlreadyRegistered(nodeType: string, holder: string)

  class NodeRegistry {
    var classes: map<string, string>
    // The `node_type` attribute of each class that was registered.
    var typeOf: map<string, string>

    constructor ()
      ensures classes == map[] && typeOf == map[]
    {
      classes, typeOf := map[], map[];
    }

    method Register(nodeType: string, className: string) returns (r: Result<string, AlreadyRegistered>)
      modifies this
      ensures r == if nodeType in old(classes) then Failure(AlreadyRegistered(nodeType, old(classes)[nodeType]))
                   else Success(className)
      ensures forall t :: t in old(classes) ==> t in classes && classes[t] == old(classes)[t]
      ensures classes.Keys == old(classes).Keys + {nodeType}
      ensures r.Success? ==> classes[nodeType] == className && typeOf == old(typeOf)[className := nodeType]
      ensures r.Failure? ==> typeOf == old(typeOf)
    {
      if nodeType in classes {
        return Failure(AlreadyRegistered(nodeType, classes[nodeType]));
      }
      classes := classes[nodeType := className];
      typeOf := typeOf[className := nodeType];
      return Success(className);
    }

    method GetNodeClass(nodeType: string) returns (className: Option<string>)
      ensures className.Some? <==> nodeType in classes
      ensures className.Some? ==> className.value == classes[nodeType]
    {
      if nodeType in classes {
        return Some(classes[nodeType]);
      }
      return None;
    }
  }
}
