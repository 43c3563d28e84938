/**
 The search for a callable repository port (internal/contractbaseline/verifier.go,
 `callableGoPort`): does a named Go type lead, through type names and embedded interfaces,
 to an interface that declares an exported method?  Types may refer to each other in
 cycles, and one `seen` set is shared by all branches of the search.
 */
module PortSearch {

  /** Type expressions; `Other` stands for every form the search does not look into. */
  datatype TypeExpr = Ident(name: string) | Interface(methods: seq<Field>) | FuncType | Other

  /** A line of an interface: an embedded type when it has no names. */
  datatype Field = Field(names: seq<string>, fieldType: TypeExpr)

  // ---------- the meaning of the question ----------

  /** The interface itself declares an exported method. */
  ghost predicate Declares(exported: string -> bool, e: TypeExpr) {
    e.Interface? && exists f, n :: f in e.methods && f.fieldType.FuncType? && n in f.names && exported(n)
  }

  /** One step: from a name to its declaration, or from an interface to what it embeds. */
  ghost predicate Step(types: map<string, TypeExpr>, e: TypeExpr, to: TypeExpr) {
    match e
    case Ident(n) => n in types && to == types[n]
    case Interface(fields) => exists f :: f in fields && f.names == [] && f.fieldType == to
    case _ => false
  }

  ghost predicate Reaches(types: map<string, TypeExpr>, e: TypeExpr, target: TypeExpr, steps: nat)
    decreases steps
  {
    if steps == 0 then e == target
    else exists mid :: Step(types, e, mid) && Reaches(types, mid, target, steps - 1)
  }

  ghost predicate Callable(types: map<string, TypeExpr>, exported: string -> bool, e: TypeExpr) {
    exists target, steps: nat :: Reaches(types, e, target, steps) && Declares(exported, target)
  }

  lemma StepIsCallable(types: map<string, TypeExpr>, exported: string -> bool, e: TypeExpr, next: TypeExpr)
    requires Step(types, e, next) && Callable(types, exported, next)
    ensures Callable(types, exported, e)
  {
    var target, steps: nat :| Reaches(types, next, target, steps) && Declares(exported, target);
    assert Reaches(types, e, target, steps + 1);
  }

  // ---------- why a fruitless search is conclusive ----------

  /** The expression declares nothing itself and leads only to names in `seen`. */
  ghost predicate Explored(exported: string -> bool, e: TypeExpr, seen: set<string>) {
    match e
    case Ident(n) => n in seen
    case Interface(fields) =>
      !Declares(exported, e) && forall f | f in fields && f.names == [] :: Explored(exported, f.fieldType, seen)
    case _ => true
  }

  ghost predicate NamesExplored(types: map<string, TypeExpr>, exported: string -> bool, names: set<string>,
                                seen: set<string>)
  {
    forall n | n in names && n in types :: Explored(exported, types[n], seen)
  }

  lemma {:induction false} ExploredGrows(exported: string -> bool, e: TypeExpr, seen: set<string>, more: set<string>)
    requires Explored(exported, e, seen) && seen <= more
    ensures Explored(exported, e, more)
  {
    if e.Interface? {
      forall f | f in e.methods && f.names == [] ensures Explored(exported, f.fieldType, more) {
        ExploredGrows(exported, f.fieldType, seen, more);
      }
    }
  }

  lemma NamesExploredGrow(types: map<string, TypeExpr>, exported: string -> bool, names: set<string>,
                          seen: set<string>, more: set<string>)
    requires NamesExplored(types, exported, names, seen) && seen <= more
    ensures NamesExplored(types, exported, names, more)
  {
    forall n | n in names && n in types ensures Explored(exported, types[n], more) {
      ExploredGrows(exported, types[n], seen, more);
    }
  }

  /** When every seen name is explored, nothing reachable declares an exported method. */
  lemma {:induction false} ExploredReachesNothing(types: map<string, TypeExpr>, exported: string -> bool, e: TypeExpr,
                                                  seen: set<string>, target: TypeExpr, steps: nat)
    requires Explored(exported, e, seen) && NamesExplored(types, exported, seen, seen)
    requires Reaches(types, e, target, steps)
    ensures !Declares(exported, target)
    decreases steps
  {
    if steps > 0 {
      var mid :| Step(types, e, mid) && Reaches(types, mid, target, steps - 1);
      ExploredReachesNothing(types, exported, mid, seen, target, steps - 1);
    }
  }

  // ---------- the search ----------

  class PortSearcher {
    const types: map<string, TypeExpr>
    const exported: string -> bool
    var seen: set<string>

    constructor (types: map<string, TypeExpr>, exported: string -> bool)
      ensures this.types == types && this.exported == exported && seen == {}
    {
      this.types, this.exported, seen := types, exported, {};
    }

    method Visit(e: TypeExpr) returns (callable: bool)
      modifies this
      ensures old(seen) <= seen
      ensures callable ==> Callable(types, exported, e)
      ensures !callable ==> Explored(exported, e, seen) && NamesExplored(types, exported, seen - old(seen), seen)
      decreases types.Keys - seen, e
    {
      match e
      case Ident(name) =>
        if name in seen {
          return false;
        }
        seen := seen + {name};
        if name in types {
          callable := Visit(types[name]);
          if callable {
            StepIsCallable(types, exported, e, types[name]);
          }
        } else {
          callable := false;
        }
      case Interface(methods) =>
        for i := 0 to |methods|
          invariant old(seen) <= seen
          invariant forall k | 0 <= k < i && methods[k].names == [] :: Explored(exported, methods[k].fieldType, seen)
          invariant forall k, n | 0 <= k < i && methods[k].fieldType.FuncType? && n in methods[k].names :: !exported(n)
          invariant NamesExplored(types, exported, seen - old(seen), seen)
        {
          var field := methods[i];
          if |field.names| == 0 {
            ghost var before := seen;
            var found := Visit(field.fieldType);
            if found {
              StepIsCallable(types, exported, e, field.fieldType);
              return true;
            }
            forall k | 0 <= k < i && methods[k].names == [] ensures Explored(exported, methods[k].fieldType, seen) {
              ExploredGrows(exported, methods[k].fieldType, before, seen);
            }
            NamesExploredGrow(types, exported, before - old(seen), before, seen);
          }
          if field.fieldType.FuncType? {
            for j := 0 to |field.names|
              invariant forall k | 0 <= k < j :: !exported(field.names[k])
            {
              if exported(field.names[j]) {
                assert Declares(exported, e) && Reaches(types, e, e, 0);
                return true;
              }
            }
          }
        }
        return false;
      case _ =>
        return false;
    }
  }

  method CallableGoPort(types: map<string, TypeExpr>, exported: string -> bool, symbol: string) returns (callable: bool)
    ensures callable <==> Callable(types, exported, Ident(symbol))
  {
    var search := new PortSearcher(types, exported);
    callable := search.Visit(Ident(symbol));
    if !callable {
      forall target, steps: nat | Reaches(types, Ident(symbol), target, steps) ensures !Declares(exported, target) {
        ExploredReachesNothing(types, exported, Ident(symbol), search.seen, target, steps);
      }
    }
  }
}
