/** The component graph a canvas runs, and what a component reports while it runs
    (agent/canvas.py, agent/component). */
module CanvasGraph {
  import opened Text
  import opened PyValues

  type Id = string

  const BEGIN: Id := "begin"

  datatype Kind =
    | Begin | UserFillUp | Message | Categorize | Switch
    | Iteration | IterationItem | Loop | LoopItem | ExitLoop | Plain

  /** `exception_handler()`; a component without one has no goto and no default. */
  datatype Handler = Handler(goto: seq<Id>, hasDefault: bool)

  /** `deps` are the component ids its input elements refer to. */
  datatype Component = Component(
    kind: Kind, deps: seq<Id>, downstream: seq<Id>, parent: Option<Id>, handler: Handler)

  /** `order` is the dictionary order of the components. */
  datatype Graph = Graph(order: seq<Id>, cpn: map<Id, Component>)

  /** What is known of a component when it is post-processed: did it fail, which components
      hold an unconsumed stream, has its loop ended, which successors did it choose. */
  datatype Report = Report(failed: bool, streaming: set<Id>, ended: bool, next: seq<Id>)

  /** All that is outside the scheduler, by path index: the reports, and whether the fill-ups
      waiting behind that index still miss an input. */
  datatype Oracle = Oracle(report: nat -> Report, asks: nat -> bool)

  predicate IsContainer(k: Kind) {
    k.Iteration? || k.Loop?
  }

  predicate IsItem(k: Kind) {
    k.IterationItem? || k.LoopItem?
  }

  /** `id.lower().find("userfillup") >= 0` */
  predicate LooksLikeFillUp(id: Id) {
    Occurs("userfillup", Lower(id))
  }

  predicate StartsContainer(g: Graph, id: Id, container: Id) {
    && id in g.cpn && container in g.cpn
    && g.cpn[id].parent == Some(container)
    && ((g.cpn[container].kind.Iteration? && g.cpn[id].kind.IterationItem?)
        || (g.cpn[container].kind.Loop? && g.cpn[id].kind.LoopItem?))
  }

  function FirstStart(g: Graph, ids: seq<Id>, container: Id): (r: Option<Id>)
    ensures r.Some? ==> StartsContainer(g, r.value, container) && r.value in ids
  {
    if ids == [] then None
    else if StartsContainer(g, ids[0], container) then Some(ids[0])
    else FirstStart(g, ids[1..], container)
  }

  /** `get_start()`: the first item component of the container. */
  function GetStart(g: Graph, container: Id): Option<Id> {
    FirstStart(g, g.order, container)
  }

  /** A parent is a container, items and exits have one, and a container has its start item. */
  ghost predicate Placed(g: Graph, id: Id)
    requires id in g.cpn
  {
    var c := g.cpn[id];
    && (c.parent.Some? ==> c.parent.value in g.cpn && IsContainer(g.cpn[c.parent.value].kind))
    && (IsItem(c.kind) || c.kind.ExitLoop? ==> c.parent.Some?)
    && (IsContainer(c.kind) ==> GetStart(g, id).Some?)
  }

  /** What loading a canvas takes for granted: a begin component, and containers with their
      items. Downstream, goto and `_next` ids may dangle. */
  ghost predicate WellFormed(g: Graph) {
    && (forall id :: id in g.order <==> id in g.cpn)
    && BEGIN in g.cpn && g.cpn[BEGIN].kind.Begin?
    && (forall id <- g.cpn :: Placed(g, id))
  }

  lemma OrderCovers(g: Graph)
    requires WellFormed(g)
    ensures forall id :: id in g.order <==> id in g.cpn
  {
  }

  lemma WellFormedAt(g: Graph, id: Id)
    requires WellFormed(g) && id in g.cpn
    ensures var c := g.cpn[id];
      && (c.parent.Some? ==> c.parent.value in g.cpn && GetStart(g, c.parent.value).Some?)
      && (IsItem(c.kind) || c.kind.ExitLoop? ==> c.parent.Some?)
      && (IsContainer(c.kind) ==> GetStart(g, id).Some?)
  {
    assert Placed(g, id);
    if g.cpn[id].parent.Some? {
      assert Placed(g, g.cpn[id].parent.value);
    }
  }

  /** The successors the post-processing picks by kind. */
  function Successors(g: Graph, id: Id, r: Report): seq<Id>
    requires WellFormed(g) && id in g.cpn
  {
    var c := g.cpn[id];
    if IsItem(c.kind) && r.ended then g.cpn[c.parent.value].downstream
    else if c.kind.Categorize? || c.kind.Switch? then r.next
    else if IsContainer(c.kind) then [GetStart(g, id).value]
    else if c.kind.ExitLoop? && g.cpn[c.parent.value].kind.Loop? then g.cpn[c.parent.value].downstream
    else if c.downstream == [] && c.parent.Some? then [GetStart(g, c.parent.value).value]
    else c.downstream
  }

  predicate TakesGoto(g: Graph, id: Id, r: Report)
    requires id in g.cpn
  {
    r.failed && g.cpn[id].handler.goto != []
  }

  /** A failure nobody handles stops the run. */
  predicate Unhandled(g: Graph, id: Id, r: Report)
    requires id in g.cpn
  {
    r.failed && g.cpn[id].handler.goto == [] && !g.cpn[id].handler.hasDefault
  }

  /** The edges a processed component may add to the path: its goto if it takes one, and then
      nothing else; otherwise its successors. */
  function Contributes(g: Graph, id: Id, r: Report): seq<Id>
    requires WellFormed(g) && id in g.cpn
  {
    if TakesGoto(g, id, r) then g.cpn[id].handler.goto else Successors(g, id, r)
  }
}
