/** Routing configuration, the SQL predicates generated from it, and the plain
    routing table those predicates must agree with.

    The generators build the same expressions as the SQL text of the collection
    query; Eval gives them SQL's three-valued meaning.
 */
module Routing {
  import opened Errors

  // --- rows and configuration ---------------------------------------------------

  // A nullable text value.
  type SqlValue = Option<string>

  // The routing-relevant columns of an outbox row; an absent column reads as NULL.
  datatype Row = Row(columns: map<string, SqlValue>)

  function Cell(row: Row, column: string): SqlValue {
    if column in row.columns then row.columns[column] else None
  }

  datatype ProviderRoute = ProviderRoute(target: string, defaultDestination: string, ownedDestinations: seq<string>)

  // eventTarget and eventDestination are column names, "" when not configured;
  // providers lists the enabled providers in registration order.
  datatype Config = Config(eventTarget: string, eventDestination: string, providers: seq<ProviderRoute>)

  // Provider targets are distinct non-empty constants, and startup validation
  // rejects a configuration without an enabled provider.
  predicate ValidConfig(cfg: Config) {
    && cfg.providers != []
    && (forall i | 0 <= i < |cfg.providers| :: cfg.providers[i].target != "")
    && (forall i, j | 0 <= i < j < |cfg.providers| :: cfg.providers[i].target != cfg.providers[j].target)
  }

  datatype Route = Route(target: string, destination: string)

  // --- the plain routing table --------------------------------------------------

  function Text(row: Row, column: string): string {
    if column == "" || Cell(row, column).None? then "" else Cell(row, column).value
  }

  function FindProvider(providers: seq<ProviderRoute>, target: string): (found: Option<ProviderRoute>)
    ensures found.Some? ==> found.value in providers && found.value.target == target
    ensures found.None? ==> forall p :: p in providers ==> p.target != target
  {
    if providers == [] then None
    else if providers[0].target == target then Some(providers[0])
    else FindProvider(providers[1..], target)
  }

  // The enabled provider an event belongs to: the one it names, or the only one
  // when it names none.
  function ProviderOf(cfg: Config, row: Row): Option<ProviderRoute> {
    var target := Text(row, cfg.eventTarget);
    if target != "" then FindProvider(cfg.providers, target)
    else if |cfg.providers| == 1 then Some(cfg.providers[0])
    else None
  }

  function DestinationOf(cfg: Config, row: Row, p: ProviderRoute): string {
    var destination := Text(row, cfg.eventDestination);
    if destination != "" then destination else p.defaultDestination
  }

  predicate Owns(p: ProviderRoute, destination: string) {
    p.ownedDestinations == [] || destination in p.ownedDestinations
  }

  // The route of a row this relay collects, or None for a row it leaves alone.
  function Resolve(cfg: Config, row: Row): (route: Option<Route>)
    ensures route.Some? ==> route.value.destination != ""
    ensures route.Some? ==> exists p :: p in cfg.providers && p.target == route.value.target && Owns(p, route.value.destination)
  {
    var provider := ProviderOf(cfg, row);
    if provider.None? then None
    else
      var destination := DestinationOf(cfg, row, provider.value);
      if destination != "" && Owns(provider.value, destination)
      then Some(Route(provider.value.target, destination))
      else None
  }

  // What a configured column says, if anything.
  predicate Says(row: Row, column: string, text: string) {
    column != "" && text != "" && column in row.columns && row.columns[column] == Some(text)
  }

  /** The routing rules. A row goes to the enabled provider it names, or to the only one if it
      names none; to the destination it names, or to that provider's default; and only if
      there is a destination and the provider owns it or restricts itself to none. */
  lemma ResolveMeans(cfg: Config, row: Row, route: Route)
    requires ValidConfig(cfg)
    ensures Resolve(cfg, row) == Some(route)
       <==> exists p :: && p in cfg.providers && p.target == route.target
                        && (Says(row, cfg.eventTarget, p.target)
                            || (|cfg.providers| == 1 && forall text :: !Says(row, cfg.eventTarget, text)))
                        && (Says(row, cfg.eventDestination, route.destination)
                            || (route.destination == p.defaultDestination && forall text :: !Says(row, cfg.eventDestination, text)))
                        && route.destination != ""
                        && (p.ownedDestinations == [] || route.destination in p.ownedDestinations)
  {
    SaysText(row, cfg.eventTarget);
    SaysText(row, cfg.eventDestination);
    if p :| p in cfg.providers && p.target == route.target {
      ProvidersDistinct(cfg, p);
    }
  }

  lemma SaysText(row: Row, column: string)
    ensures forall text :: Says(row, column, text) <==> text != "" && Text(row, column) == text
    ensures Text(row, column) == "" <==> forall text :: !Says(row, column, text)
  {
    if Text(row, column) != "" {
      assert Says(row, column, Text(row, column));
    }
  }

  // --- SQL expressions and their meaning ------------------------------------------

  datatype Expr =
    | Null
    | Literal(text: string)
    | Column(name: string)
    | RouteTarget       // routes.resolved_target
    | RouteDestination  // routes.resolved_destination
    | NullIf(e: Expr, text: string)
    | Coalesce(first: Expr, second: Expr)
    | Case(whens: seq<When>, otherwise: string)

  // WHEN subject = match THEN result
  datatype When = When(subject: Expr, match_: string, result: string)

  datatype Pred =
    | True
    | False
    | Equal(a: Expr, b: Expr)
    | NotEqual(a: Expr, b: Expr)
    | In(e: Expr, values: seq<string>)
    | IsNull(e: Expr)
    | And(p: Pred, q: Pred)
    | Or(p: Pred, q: Pred)

  datatype Truth = T | F | Unknown

  // The row under test and the row of the routes CTE it is compared with.
  datatype Scope = Scope(row: Row, routeTarget: SqlValue, routeDestination: SqlValue)

  // `a = b` holds only for two equal non-null values.
  predicate SameValue(a: SqlValue, b: SqlValue) {
    a.Some? && b.Some? && a == b
  }

  function Value(e: Expr, s: Scope): SqlValue {
    match e
    case Null => None
    case Literal(text) => Some(text)
    case Column(name) => Cell(s.row, name)
    case RouteTarget => s.routeTarget
    case RouteDestination => s.routeDestination
    case NullIf(inner, text) => if SameValue(Value(inner, s), Some(text)) then None else Value(inner, s)
    case Coalesce(first, second) => if Value(first, s).Some? then Value(first, s) else Value(second, s)
    case Case(whens, otherwise) => CaseValue(whens, otherwise, s)
  }

  function CaseValue(whens: seq<When>, otherwise: string, s: Scope): SqlValue {
    if whens == [] then Some(otherwise)
    else if SameValue(Value(whens[0].subject, s), Some(whens[0].match_)) then Some(whens[0].result)
    else CaseValue(whens[1..], otherwise, s)
  }

  function Compare(a: SqlValue, b: SqlValue): Truth {
    if a.None? || b.None? then Unknown else if a == b then T else F
  }

  function Not(t: Truth): Truth {
    match t case T => F case F => T case Unknown => Unknown
  }

  function Both(a: Truth, b: Truth): Truth {
    if a == F || b == F then F else if a == T && b == T then T else Unknown
  }

  function Either(a: Truth, b: Truth): Truth {
    if a == T || b == T then T else if a == F && b == F then F else Unknown
  }

  function Holds(p: Pred, s: Scope): Truth {
    match p
    case True => T
    case False => F
    case Equal(a, b) => Compare(Value(a, s), Value(b, s))
    case NotEqual(a, b) => Not(Compare(Value(a, s), Value(b, s)))
    case In(e, values) => if Value(e, s).None? then Unknown else if Value(e, s).value in values then T else F
    case IsNull(e) => if Value(e, s).None? then T else F
    case And(a, b) => Both(Holds(a, s), Holds(b, s))
    case Or(a, b) => Either(Holds(a, s), Holds(b, s))
  }

  // --- the generators ------------------------------------------------------------

  function Targets(providers: seq<ProviderRoute>): (targets: seq<string>)
    ensures forall t :: t in targets <==> exists p :: p in providers && p.target == t
  {
    if providers == [] then []
    else
      var rest := Targets(providers[1..]);
      assert forall p :: p in providers <==> p == providers[0] || p in providers[1..];
      [providers[0].target] + rest
  }

  // resolvedTargetSQL
  function TargetExpr(cfg: Config): Expr {
    if cfg.providers == [] then Null
    else if |cfg.providers| == 1 then
      var target := cfg.providers[0].target;
      if cfg.eventTarget == "" then Literal(target)
      else Coalesce(NullIf(Column(cfg.eventTarget), ""), Literal(target))
    else if cfg.eventTarget == "" then Null
    else NullIf(Column(cfg.eventTarget), "")
  }

  function TargetPredicate(cfg: Config): Pred {
    if cfg.providers == [] then False
    else if |cfg.providers| == 1 then
      if cfg.eventTarget == "" then True
      else Equal(TargetExpr(cfg), Literal(cfg.providers[0].target))
    else if cfg.eventTarget == "" then False
    else In(TargetExpr(cfg), Targets(cfg.providers))
  }

  // resolvedDestinationSQL
  function DestinationExpr(cfg: Config, target: Expr): Expr {
    if cfg.eventDestination == "" then
      if |cfg.providers| == 1 then Literal(cfg.providers[0].defaultDestination)
      else DefaultDestinationExpr(cfg, target)
    else Coalesce(NullIf(Column(cfg.eventDestination), ""), DefaultDestinationExpr(cfg, target))
  }

  function Branches(providers: seq<ProviderRoute>, target: Expr): seq<When> {
    if providers == [] then []
    else [When(target, providers[0].target, providers[0].defaultDestination)] + Branches(providers[1..], target)
  }

  // defaultDestinationSQL
  function DefaultDestinationExpr(cfg: Config, target: Expr): Expr {
    Case(Branches(cfg.providers, target), "")
  }

  // The loop form of defaultDestinationSQL's branch list.
  method BuildBranches(cfg: Config, target: Expr) returns (branches: seq<When>)
    ensures branches == Branches(cfg.providers, target)
  {
    branches := [];
    for i := 0 to |cfg.providers|
      invariant branches + Branches(cfg.providers[i..], target) == Branches(cfg.providers, target)
    {
      var route := cfg.providers[i];
      assert cfg.providers[i..][1..] == cfg.providers[i + 1..];
      branches := branches + [When(target, route.target, route.defaultDestination)];
    }
  }

  // routeMatchSQL
  function TargetMatch(cfg: Config): Pred {
    if cfg.eventTarget == "" then Equal(TargetExpr(cfg), RouteTarget)
    else
      var column := Column(cfg.eventTarget);
      if |cfg.providers| == 1 && cfg.providers[0].target != "" then
        Or(Equal(NullIf(column, ""), RouteTarget),
           And(IsNull(NullIf(column, "")), Equal(Literal(cfg.providers[0].target), RouteTarget)))
      else Equal(column, RouteTarget)
  }

  function DestinationMatch(cfg: Config, target: Expr): Pred {
    if cfg.eventDestination == "" then Equal(DestinationExpr(cfg, target), RouteDestination)
    else
      var column := Column(cfg.eventDestination);
      Or(Equal(NullIf(column, ""), RouteDestination),
         And(IsNull(NullIf(column, "")), Equal(DefaultDestinationExpr(cfg, target), RouteDestination)))
  }

  function RouteMatch(cfg: Config): Pred {
    And(TargetMatch(cfg), DestinationMatch(cfg, TargetExpr(cfg)))
  }

  function OwnershipClauses(providers: seq<ProviderRoute>, target: Expr, destination: Expr): seq<Pred> {
    if providers == [] then []
    else
      var rest := OwnershipClauses(providers[1..], target, destination);
      if providers[0].ownedDestinations == [] then rest else [OwnershipClause(providers[0], target, destination)] + rest
  }

  function OwnershipClause(p: ProviderRoute, target: Expr, destination: Expr): Pred {
    Or(NotEqual(target, Literal(p.target)), In(destination, p.ownedDestinations))
  }

  // strings.Join(clauses, " AND "), or TRUE when there is none
  function Conjunction(clauses: seq<Pred>): Pred {
    if clauses == [] then True else And(clauses[0], Conjunction(clauses[1..]))
  }

  // routeOwnershipSQL
  function Ownership(providers: seq<ProviderRoute>, target: Expr, destination: Expr): Pred {
    Conjunction(OwnershipClauses(providers, target, destination))
  }

  // The loop form of routeOwnershipSQL.
  method BuildOwnership(cfg: Config, target: Expr, destination: Expr) returns (ownership: Pred)
    ensures ownership == Ownership(cfg.providers, target, destination)
  {
    var predicates := [];
    for i := 0 to |cfg.providers|
      invariant predicates + OwnershipClauses(cfg.providers[i..], target, destination)
             == OwnershipClauses(cfg.providers, target, destination)
    {
      var route := cfg.providers[i];
      assert cfg.providers[i..][1..] == cfg.providers[i + 1..];
      if |route.ownedDestinations| == 0 {
        continue;
      }
      predicates := predicates + [OwnershipClause(route, target, destination)];
    }
    assert predicates == OwnershipClauses(cfg.providers, target, destination);
    ownership := Conjunction(predicates);
  }

  // routableSQL, as the collection query and the backlog probe both call it
  function Routable(cfg: Config): Pred {
    var target := TargetExpr(cfg);
    var destination := DestinationExpr(cfg, target);
    And(And(TargetPredicate(cfg), NotEqual(Coalesce(destination, Literal("")), Literal(""))),
        Ownership(cfg.providers, target, destination))
  }

  // --- the predicates agree with the routing table -----------------------------------

  predicate IsRoutable(cfg: Config, s: Scope) {
    Holds(Routable(cfg), s) == T
  }

  lemma {:induction false} DefaultBranchValue(providers: seq<ProviderRoute>, target: Expr, s: Scope)
    ensures CaseValue(Branches(providers, target), "", s)
         == (var v := Value(target, s);
             if v.None? then Some("")
             else var found := FindProvider(providers, v.value);
                  Some(if found.Some? then found.value.defaultDestination else ""))
  {
    if providers != [] {
      assert Branches(providers, target)[1..] == Branches(providers[1..], target);
      DefaultBranchValue(providers[1..], target, s);
    }
  }

  // On a row whose target and destination are known, the ownership clauses say
  // exactly that the provider named by the target owns the destination.
  lemma {:induction false} OwnershipHolds(providers: seq<ProviderRoute>, target: Expr, destination: Expr, s: Scope, p: ProviderRoute)
    requires Value(target, s) == Some(p.target) && Value(destination, s).Some?
    requires forall q :: q in providers && q.target == p.target ==> q == p
    ensures Holds(Ownership(providers, target, destination), s) == T
        <==> (p in providers ==> Owns(p, Value(destination, s).value))
  {
    if providers != [] {
      var head := providers[0];
      OwnershipHolds(providers[1..], target, destination, s, p);
      assert p in providers <==> p == head || p in providers[1..];
      OwnershipUnfold(providers, target, destination, s);
      if head.ownedDestinations != [] {
        ClauseHolds(head, target, destination, s, p);
      }
    }
  }

  lemma OwnershipUnfold(providers: seq<ProviderRoute>, target: Expr, destination: Expr, s: Scope)
    requires providers != []
    ensures var rest := Holds(Ownership(providers[1..], target, destination), s);
            Holds(Ownership(providers, target, destination), s)
            == if providers[0].ownedDestinations == [] then rest
               else Both(Holds(OwnershipClause(providers[0], target, destination), s), rest)
  {
    if providers[0].ownedDestinations != [] {
      assert OwnershipClauses(providers, target, destination)[1..] == OwnershipClauses(providers[1..], target, destination);
    }
  }

  lemma ClauseHolds(q: ProviderRoute, target: Expr, destination: Expr, s: Scope, p: ProviderRoute)
    requires Value(target, s) == Some(p.target) && Value(destination, s).Some?
    requires q.target == p.target ==> q == p
    requires q.ownedDestinations != []
    ensures Holds(OwnershipClause(q, target, destination), s) == T <==> (q == p ==> Owns(p, Value(destination, s).value))
  {
    var other := NotEqual(target, Literal(q.target));
    assert Holds(other, s) == if q.target == p.target then F else T;
    assert Holds(OwnershipClause(q, target, destination), s) == Either(Holds(other, s), Holds(In(destination, q.ownedDestinations), s));
  }

  lemma ProvidersDistinct(cfg: Config, p: ProviderRoute)
    requires ValidConfig(cfg) && p in cfg.providers
    ensures forall q :: q in cfg.providers && q.target == p.target ==> q == p
  {
  }

  lemma TargetResolves(cfg: Config, s: Scope)
    requires ValidConfig(cfg)
    ensures Holds(TargetPredicate(cfg), s) == T <==> ProviderOf(cfg, s.row).Some?
    ensures ProviderOf(cfg, s.row).Some? ==>
              && Value(TargetExpr(cfg), s) == Some(ProviderOf(cfg, s.row).value.target)
              && ProviderOf(cfg, s.row).value in cfg.providers
              && FindProvider(cfg.providers, ProviderOf(cfg, s.row).value.target) == ProviderOf(cfg, s.row)
  {
    var target := Text(s.row, cfg.eventTarget);
    if |cfg.providers| == 1 {
      var only := cfg.providers[0];
      assert forall p :: p in cfg.providers <==> p == only;
      assert FindProvider(cfg.providers, only.target) == Some(only);
      if cfg.eventTarget != "" {
        assert Value(NullIf(Column(cfg.eventTarget), ""), s) == if target == "" then None else Some(target);
        assert Value(TargetExpr(cfg), s) == Some(if target == "" then only.target else target);
      }
    } else if cfg.eventTarget != "" {
      assert Value(TargetExpr(cfg), s) == if target == "" then None else Some(target);
      assert target in Targets(cfg.providers) <==> FindProvider(cfg.providers, target).Some?;
    }
  }

  /** For every valid configuration and row the generated predicate is TRUE exactly
      when the routing table resolves the row, and the generated target and
      destination expressions then compute that route. */
  lemma RoutableIffResolves(cfg: Config, s: Scope)
    requires ValidConfig(cfg)
    ensures IsRoutable(cfg, s) <==> Resolve(cfg, s.row).Some?
    ensures Resolve(cfg, s.row).Some? ==>
              && Value(TargetExpr(cfg), s) == Some(Resolve(cfg, s.row).value.target)
              && Value(DestinationExpr(cfg, TargetExpr(cfg)), s) == Some(Resolve(cfg, s.row).value.destination)
  {
    var target := TargetExpr(cfg);
    var destination := DestinationExpr(cfg, target);
    TargetResolves(cfg, s);
    var provider := ProviderOf(cfg, s.row);
    var known, present := TargetPredicate(cfg), NotEqual(Coalesce(destination, Literal("")), Literal(""));
    var owned := Ownership(cfg.providers, target, destination);
    assert Holds(Routable(cfg), s) == Both(Holds(And(known, present), s), Holds(owned, s));
    assert Holds(And(known, present), s) == Both(Holds(known, s), Holds(present, s));
    if provider.Some? {
      DefaultBranchValue(cfg.providers, target, s);
      assert Value(DefaultDestinationExpr(cfg, target), s) == Some(provider.value.defaultDestination);
      if cfg.eventDestination != "" {
        var text := Text(s.row, cfg.eventDestination);
        assert Value(NullIf(Column(cfg.eventDestination), ""), s) == if text == "" then None else Some(text);
      }
      assert Value(destination, s) == Some(DestinationOf(cfg, s.row, provider.value));
      assert Value(Coalesce(destination, Literal("")), s) == Value(destination, s);
      ProvidersDistinct(cfg, provider.value);
      OwnershipHolds(cfg.providers, target, destination, s, provider.value);
    }
  }

  /** On a routable row the generated match predicate is TRUE for exactly one row of
      the routes CTE: the row's own resolved route. */
  lemma RouteMatchIffSameRoute(cfg: Config, row: Row, route: Route)
    requires ValidConfig(cfg)
    requires Resolve(cfg, row).Some?
    ensures Holds(RouteMatch(cfg), Scope(row, Some(route.target), Some(route.destination))) == T
        <==> Resolve(cfg, row) == Some(route)
  {
    var s := Scope(row, Some(route.target), Some(route.destination));
    RoutableIffResolves(cfg, s);
    TargetResolves(cfg, s);
    DefaultBranchValue(cfg.providers, TargetExpr(cfg), s);
    var r := Resolve(cfg, row).value;
    assert Holds(TargetMatch(cfg), s) == T <==> r.target == route.target by {
      if cfg.eventTarget != "" && |cfg.providers| == 1 {
        ColumnOrDefault(cfg.eventTarget, Literal(cfg.providers[0].target), RouteTarget, s);
      }
    }
    assert Holds(DestinationMatch(cfg, TargetExpr(cfg)), s) == T <==> r.destination == route.destination by {
      if cfg.eventDestination != "" {
        ColumnOrDefault(cfg.eventDestination, DefaultDestinationExpr(cfg, TargetExpr(cfg)), RouteDestination, s);
      }
    }
  }

  // The shape routeMatchSQL gives a column with a fallback: TRUE exactly when the
  // column's text, or the fallback when that text is empty, equals `other`.
  lemma ColumnOrDefault(column: string, fallback: Expr, other: Expr, s: Scope)
    requires column != ""
    ensures var text := Text(s.row, column);
            var chosen := if text == "" then Value(fallback, s) else Some(text);
            Holds(Or(Equal(NullIf(Column(column), ""), other),
                     And(IsNull(NullIf(Column(column), "")), Equal(fallback, other))), s) == T
            <==> SameValue(chosen, Value(other, s))
  {
    var text := Text(s.row, column);
    var value := NullIf(Column(column), "");
    assert Value(value, s) == if text == "" then None else Some(text);
    var explicit, defaulted := Equal(value, other), And(IsNull(value), Equal(fallback, other));
    assert Holds(Or(explicit, defaulted), s) == Either(Holds(explicit, s), Holds(defaulted, s));
    assert Holds(defaulted, s) == Both(Holds(IsNull(value), s), Holds(Equal(fallback, other), s));
  }
}
