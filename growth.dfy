/**
 * What the nested rules of SubSceneManager (ProcessJoint, ProcessLink,
 * ProcessModel and their sensor and visual loops) build, and what they
 * leave alone.  Each rule only adds nodes whose names its message carries,
 * only changes existing nodes of those names, and never re-parents a node.
 * The visual found or created for a joint, link or model is posed (and, for
 * a model, scaled) as the message says; the nested visuals are created
 * under it, except entry 0 of a model's or link's visual list, which the
 * loops skip.
 */
module GraphGrowth {
  import opened Wrappers
  import opened Msgs
  import opened Convert
  import opened Scenes
  import opened GraphRules

  /**
   * `b` grew from `a` touching only names in `touched`: nodes of `a` stay,
   * with their kinds and parents; those outside `touched` stay unchanged;
   * new nodes have names in `touched`.
   */
  predicate Confined(a: NodeMap, b: NodeMap, touched: set<string>) {
    && Extends(a, b)
    && b.Keys <= a.Keys + touched
    && (forall n :: n in a ==> b[n].parent == a[n].parent)
    && (forall n :: n in a && n !in touched ==> b[n] == a[n])
  }

  lemma ConfinedTransitive(a: NodeMap, b: NodeMap, c: NodeMap, t1: set<string>, t2: set<string>)
    requires Confined(a, b, t1) && Confined(b, c, t2)
    ensures Confined(a, c, t1 + t2)
  {
  }

  function Posed(n: Node, p: Option<PoseMsg>): Node {
    if p.Some? then n.(pose := Some(ConvertPose(p.value))) else n
  }

  function Scaled(n: Node, s: Option<Vector3dMsg>): Node {
    if s.Some? then n.(scale := Some(ConvertVector(s.value))) else n
  }

  /**
   * The lookup-or-create, pose and scale steps shared by ProcessJoint,
   * ProcessLink and ProcessModel: only the named node is touched, and it
   * ends up posed and scaled as given.
   */
  function Placed(nodes: NodeMap, id: Option<nat>, name: string, parent: ParentRef,
                  p: Option<PoseMsg>, s: Option<Vector3dMsg>): (r: NodeMap)
    requires name !in nodes || HasVisual(nodes, name)
    ensures name in r && r[name] == Scaled(Posed(FoundOrNew(nodes, name, id, parent), p), s)
    ensures Confined(nodes, r, {name})
  {
    SetScaleIf(SetPoseIf(GetVisual(nodes, id, name, parent).nodes, name, p), name, s)
  }

  // ------------------------------------------------------------- names

  function SensorNames(ss: seq<SensorMsg>): set<string> {
    if |ss| == 0 then {} else SensorNames(ss[..|ss| - 1]) + {ss[|ss| - 1].name}
  }

  function VisualNames(vs: seq<VisualMsg>): set<string> {
    if |vs| == 0 then {} else VisualNames(vs[..|vs| - 1]) + {vs[|vs| - 1].name}
  }

  /** Every name a list of joints carries: the joints' own and their sensors'. */
  function JointNames(js: seq<JointMsg>): set<string> {
    if |js| == 0 then {}
    else JointNames(js[..|js| - 1]) + {js[|js| - 1].name} + SensorNames(js[|js| - 1].sensors)
  }

  /** The names a link message can add: its own, its visuals 1..n-1 and its sensors. */
  function LinkOwnNames(l: LinkMsg): set<string> {
    {l.name} + VisualNames(SkipFirst(l.visuals)) + SensorNames(l.sensors)
  }

  function LinkNames(ls: seq<LinkMsg>): set<string> {
    if |ls| == 0 then {} else LinkNames(ls[..|ls| - 1]) + LinkOwnNames(ls[|ls| - 1])
  }

  /** The names a model's joints, links and visuals 1..n-1 carry. */
  function NestedNames(msg: ModelMsg): set<string> {
    JointNames(msg.joints) + LinkNames(msg.links) + VisualNames(SkipFirst(msg.visuals))
  }

  lemma {:induction false} VisualNamed(vs: seq<VisualMsg>, i: nat)
    requires i < |vs|
    ensures vs[i].name in VisualNames(vs)
  {
    if i < |vs| - 1 {
      VisualNamed(vs[..|vs| - 1], i);
    }
  }

  // ------------------------------------------------------- sensor lists

  /** The sensor loop never changes an existing node; it only adds cameras named by its messages. */
  lemma {:induction false} SensorsConfined(nodes: NodeMap, ss: seq<SensorMsg>, parent: ParentRef)
    ensures Confined(nodes, ApplySensors(nodes, ss, parent), SensorNames(ss))
    ensures forall n :: n in nodes ==> ApplySensors(nodes, ss, parent)[n] == nodes[n]
  {
    if |ss| > 0 {
      SensorsConfined(nodes, ss[..|ss| - 1], parent);
    }
  }

  lemma SensorsKeepNode(nodes: NodeMap, ss: seq<SensorMsg>, parent: ParentRef, n: string)
    requires n in nodes
    ensures n in ApplySensors(nodes, ss, parent) && ApplySensors(nodes, ss, parent)[n] == nodes[n]
  {
    SensorsConfined(nodes, ss, parent);
  }

  // ------------------------------------------------------- visual lists

  /**
   * The visual loop touches only the names of its messages and creates
   * every new one of them as a visual under `parent`.
   */
  lemma {:induction false} VisualsConfined(nodes: NodeMap, vs: seq<VisualMsg>, parent: ParentRef)
    ensures Confined(nodes, ApplyVisuals(nodes, vs, parent), VisualNames(vs))
    ensures forall n :: n in VisualNames(vs) && n !in nodes ==>
              n in ApplyVisuals(nodes, vs, parent)
              && ApplyVisuals(nodes, vs, parent)[n].kind == VisualNode
              && ApplyVisuals(nodes, vs, parent)[n].parent == parent
  {
    if |vs| > 0 {
      var prefix := vs[..|vs| - 1];
      VisualsConfined(nodes, prefix, parent);
      var before := ApplyVisuals(nodes, prefix, parent);
      var r := ApplyVisuals(nodes, vs, parent);
      var last := vs[|vs| - 1];
      assert r == ProcessVisual(before, last, parent);
      forall n | n in VisualNames(vs) && n !in nodes
        ensures n in r && r[n].kind == VisualNode && r[n].parent == parent
      {
        if n in VisualNames(prefix) {
          assert n in before && before[n].kind == VisualNode;
        } else {
          assert n == last.name && n !in before;
        }
      }
    }
  }

  /** A visual message whose name is new to the graph creates a visual under `parent`. */
  lemma VisualsCreateNode(nodes: NodeMap, vs: seq<VisualMsg>, parent: ParentRef, i: nat)
    requires i < |vs| && vs[i].name !in nodes
    ensures vs[i].name in ApplyVisuals(nodes, vs, parent)
    ensures ApplyVisuals(nodes, vs, parent)[vs[i].name].kind == VisualNode
    ensures ApplyVisuals(nodes, vs, parent)[vs[i].name].parent == parent
  {
    VisualNamed(vs, i);
    VisualsConfined(nodes, vs, parent);
  }

  // -------------------------------------------------------------- joints

  lemma JointIsStaged(nodes: NodeMap, msg: JointMsg, parent: ParentRef)
    requires msg.name !in nodes || HasVisual(nodes, msg.name)
    ensures ProcessJoint(nodes, msg, parent)
            == ApplySensors(Placed(nodes, msg.id, msg.name, parent, msg.pose, None), msg.sensors, Named(msg.name))
  {
  }

  /** ProcessJoint touches only the joint's and its sensors' names, and changes no node but the joint's. */
  lemma JointConfined(nodes: NodeMap, msg: JointMsg, parent: ParentRef)
    ensures Confined(nodes, ProcessJoint(nodes, msg, parent), {msg.name} + SensorNames(msg.sensors))
    ensures forall n :: n in nodes && n != msg.name ==> ProcessJoint(nodes, msg, parent)[n] == nodes[n]
  {
    if msg.name !in nodes || HasVisual(nodes, msg.name) {
      JointIsStaged(nodes, msg, parent);
      var placed := Placed(nodes, msg.id, msg.name, parent, msg.pose, None);
      SensorsConfined(placed, msg.sensors, Named(msg.name));
      ConfinedTransitive(nodes, placed, ProcessJoint(nodes, msg, parent), {msg.name}, SensorNames(msg.sensors));
    }
  }

  /**
   * ProcessJoint finds the visual or creates it under `parent`, and gives it
   * the message's pose; a name held by a node that is not a visual stops
   * the message.
   */
  lemma JointResult(nodes: NodeMap, msg: JointMsg, parent: ParentRef)
    ensures msg.name !in nodes || HasVisual(nodes, msg.name) ==>
              && msg.name in ProcessJoint(nodes, msg, parent)
              && ProcessJoint(nodes, msg, parent)[msg.name] == Posed(FoundOrNew(nodes, msg.name, msg.id, parent), msg.pose)
    ensures msg.name in nodes && !HasVisual(nodes, msg.name) ==> ProcessJoint(nodes, msg, parent) == nodes
  {
    if msg.name !in nodes || HasVisual(nodes, msg.name) {
      JointIsStaged(nodes, msg, parent);
      SensorsConfined(Placed(nodes, msg.id, msg.name, parent, msg.pose, None), msg.sensors, Named(msg.name));
    }
  }

  lemma {:induction false} JointsConfined(nodes: NodeMap, js: seq<JointMsg>, parent: ParentRef)
    ensures Confined(nodes, ApplyJoints(nodes, js, parent), JointNames(js))
  {
    if |js| > 0 {
      var before := ApplyJoints(nodes, js[..|js| - 1], parent);
      JointsConfined(nodes, js[..|js| - 1], parent);
      JointConfined(before, js[|js| - 1], parent);
      ConfinedTransitive(nodes, before, ApplyJoints(nodes, js, parent),
                         JointNames(js[..|js| - 1]), {js[|js| - 1].name} + SensorNames(js[|js| - 1].sensors));
    }
  }

  // --------------------------------------------------------------- links

  /** The link's visual after lookup and pose, before its visuals and sensors. */
  function LinkPlaced(nodes: NodeMap, msg: LinkMsg, parent: ParentRef): NodeMap
    requires msg.name !in nodes || HasVisual(nodes, msg.name)
  {
    Placed(nodes, msg.id, msg.name, parent, msg.pose, None)
  }

  lemma LinkIsStaged(nodes: NodeMap, msg: LinkMsg, parent: ParentRef)
    requires msg.name !in nodes || HasVisual(nodes, msg.name)
    ensures ProcessLink(nodes, msg, parent)
            == ApplySensors(ApplyVisuals(LinkPlaced(nodes, msg, parent), SkipFirst(msg.visuals), Named(msg.name)),
                            msg.sensors, Named(msg.name))
  {
  }

  lemma LinkConfined(nodes: NodeMap, msg: LinkMsg, parent: ParentRef)
    ensures Confined(nodes, ProcessLink(nodes, msg, parent), LinkOwnNames(msg))
  {
    if msg.name !in nodes || HasVisual(nodes, msg.name) {
      LinkIsStaged(nodes, msg, parent);
      var link := Named(msg.name);
      var posed := LinkPlaced(nodes, msg, parent);
      VisualsConfined(posed, SkipFirst(msg.visuals), link);
      var withVisuals := ApplyVisuals(posed, SkipFirst(msg.visuals), link);
      SensorsConfined(withVisuals, msg.sensors, link);
      ConfinedTransitive(nodes, posed, withVisuals, {msg.name}, VisualNames(SkipFirst(msg.visuals)));
      ConfinedTransitive(nodes, withVisuals, ProcessLink(nodes, msg, parent),
                         {msg.name} + VisualNames(SkipFirst(msg.visuals)), SensorNames(msg.sensors));
    }
  }

  /**
   * ProcessLink finds the visual or creates it under `parent`; it stays a
   * visual with that parent, and has the message's pose unless one of the
   * link's own visuals shares its name.
   */
  lemma LinkResult(nodes: NodeMap, msg: LinkMsg, parent: ParentRef)
    ensures msg.name !in nodes || HasVisual(nodes, msg.name) ==>
              && msg.name in ProcessLink(nodes, msg, parent)
              && ProcessLink(nodes, msg, parent)[msg.name].kind == VisualNode
              && ProcessLink(nodes, msg, parent)[msg.name].parent == FoundOrNew(nodes, msg.name, msg.id, parent).parent
    ensures (msg.name !in nodes || HasVisual(nodes, msg.name)) && msg.name !in VisualNames(SkipFirst(msg.visuals)) ==>
              ProcessLink(nodes, msg, parent)[msg.name] == Posed(FoundOrNew(nodes, msg.name, msg.id, parent), msg.pose)
    ensures msg.name in nodes && !HasVisual(nodes, msg.name) ==> ProcessLink(nodes, msg, parent) == nodes
  {
    if msg.name !in nodes || HasVisual(nodes, msg.name) {
      LinkIsStaged(nodes, msg, parent);
      var link := Named(msg.name);
      var posed := LinkPlaced(nodes, msg, parent);
      VisualsConfined(posed, SkipFirst(msg.visuals), link);
      SensorsConfined(ApplyVisuals(posed, SkipFirst(msg.visuals), link), msg.sensors, link);
    }
  }

  /**
   * The loop of ProcessLink starts at 1: a first visual whose name nothing
   * else in the message or the graph carries is not created.
   */
  lemma LinkSkipsFirstVisual(nodes: NodeMap, msg: LinkMsg, parent: ParentRef)
    requires |msg.visuals| > 0 && msg.visuals[0].name !in nodes && msg.visuals[0].name != msg.name
    requires msg.visuals[0].name !in VisualNames(SkipFirst(msg.visuals)) + SensorNames(msg.sensors)
    ensures msg.visuals[0].name !in ProcessLink(nodes, msg, parent)
  {
    LinkConfined(nodes, msg, parent);
  }

  /** Every later visual of a link whose name is new to the graph is created as a visual under the link. */
  lemma LinkCreatesLaterVisuals(nodes: NodeMap, msg: LinkMsg, parent: ParentRef, i: nat)
    requires msg.name !in nodes || HasVisual(nodes, msg.name)
    requires 1 <= i < |msg.visuals| && msg.visuals[i].name !in nodes && msg.visuals[i].name != msg.name
    ensures msg.visuals[i].name in ProcessLink(nodes, msg, parent)
    ensures ProcessLink(nodes, msg, parent)[msg.visuals[i].name].kind == VisualNode
    ensures ProcessLink(nodes, msg, parent)[msg.visuals[i].name].parent == Named(msg.name)
  {
    LinkIsStaged(nodes, msg, parent);
    var link := Named(msg.name);
    var v := msg.visuals[i].name;
    var posed := LinkPlaced(nodes, msg, parent);
    assert v !in posed;
    assert SkipFirst(msg.visuals)[i - 1] == msg.visuals[i];
    VisualsCreateNode(posed, SkipFirst(msg.visuals), link, i - 1);
    SensorsKeepNode(ApplyVisuals(posed, SkipFirst(msg.visuals), link), msg.sensors, link, v);
  }

  lemma {:induction false} LinksConfined(nodes: NodeMap, ls: seq<LinkMsg>, parent: ParentRef)
    ensures Confined(nodes, ApplyLinks(nodes, ls, parent), LinkNames(ls))
  {
    if |ls| > 0 {
      var before := ApplyLinks(nodes, ls[..|ls| - 1], parent);
      LinksConfined(nodes, ls[..|ls| - 1], parent);
      LinkConfined(before, ls[|ls| - 1], parent);
      ConfinedTransitive(nodes, before, ApplyLinks(nodes, ls, parent), LinkNames(ls[..|ls| - 1]), LinkOwnNames(ls[|ls| - 1]));
    }
  }

  // -------------------------------------------------------------- models

  /** The stages of ProcessModel, named once for the lemmas below. */
  datatype ModelStages = ModelStages(scaled: NodeMap, withJoints: NodeMap, withLinks: NodeMap)

  function StagesOf(nodes: NodeMap, msg: ModelMsg, parent: ParentRef): (st: ModelStages)
    requires msg.name !in nodes || HasVisual(nodes, msg.name)
    ensures st.scaled == Placed(nodes, msg.id, msg.name, parent, msg.pose, msg.scale)
    ensures st.withJoints == ApplyJoints(st.scaled, msg.joints, Named(msg.name))
    ensures st.withLinks == ApplyLinks(st.withJoints, msg.links, Named(msg.name))
  {
    var scaled := Placed(nodes, msg.id, msg.name, parent, msg.pose, msg.scale);
    var withJoints := ApplyJoints(scaled, msg.joints, Named(msg.name));
    ModelStages(scaled, withJoints, ApplyLinks(withJoints, msg.links, Named(msg.name)))
  }

  lemma ModelIsStaged(nodes: NodeMap, msg: ModelMsg, parent: ParentRef)
    requires msg.name !in nodes || HasVisual(nodes, msg.name)
    ensures ProcessModel(nodes, msg, parent)
            == ApplyVisuals(StagesOf(nodes, msg, parent).withLinks, SkipFirst(msg.visuals), Named(msg.name))
  {
  }

  /** Each stage of ProcessModel after the pose and scale touches only the names it carries. */
  lemma ModelStagesConfined(nodes: NodeMap, msg: ModelMsg, parent: ParentRef)
    requires msg.name !in nodes || HasVisual(nodes, msg.name)
    ensures var st := StagesOf(nodes, msg, parent);
            && Confined(st.scaled, st.withLinks, JointNames(msg.joints) + LinkNames(msg.links))
            && Confined(st.withLinks, ProcessModel(nodes, msg, parent), VisualNames(SkipFirst(msg.visuals)))
  {
    var st := StagesOf(nodes, msg, parent);
    ModelIsStaged(nodes, msg, parent);
    JointsConfined(st.scaled, msg.joints, Named(msg.name));
    LinksConfined(st.withJoints, msg.links, Named(msg.name));
    ConfinedTransitive(st.scaled, st.withJoints, st.withLinks, JointNames(msg.joints), LinkNames(msg.links));
    VisualsConfined(st.withLinks, SkipFirst(msg.visuals), Named(msg.name));
  }

  /** ProcessModel touches only the model's own name and the names its joints, links and visuals carry. */
  lemma ModelConfined(nodes: NodeMap, msg: ModelMsg, parent: ParentRef)
    ensures Confined(nodes, ProcessModel(nodes, msg, parent), {msg.name} + NestedNames(msg))
  {
    if msg.name !in nodes || HasVisual(nodes, msg.name) {
      var st := StagesOf(nodes, msg, parent);
      ModelStagesConfined(nodes, msg, parent);
      ConfinedTransitive(nodes, st.scaled, st.withLinks, {msg.name}, JointNames(msg.joints) + LinkNames(msg.links));
      ConfinedTransitive(nodes, st.withLinks, ProcessModel(nodes, msg, parent),
                         {msg.name} + JointNames(msg.joints) + LinkNames(msg.links), VisualNames(SkipFirst(msg.visuals)));
    }
  }

  /**
   * ProcessModel finds the visual or creates it under `parent`; it stays a
   * visual with that parent, and has the message's pose and scale unless a
   * nested joint, link or visual shares its name.
   */
  lemma ModelResult(nodes: NodeMap, msg: ModelMsg, parent: ParentRef)
    ensures msg.name !in nodes || HasVisual(nodes, msg.name) ==>
              && msg.name in ProcessModel(nodes, msg, parent)
              && ProcessModel(nodes, msg, parent)[msg.name].kind == VisualNode
              && ProcessModel(nodes, msg, parent)[msg.name].parent == FoundOrNew(nodes, msg.name, msg.id, parent).parent
    ensures (msg.name !in nodes || HasVisual(nodes, msg.name)) && msg.name !in NestedNames(msg) ==>
              ProcessModel(nodes, msg, parent)[msg.name]
              == Scaled(Posed(FoundOrNew(nodes, msg.name, msg.id, parent), msg.pose), msg.scale)
    ensures msg.name in nodes && !HasVisual(nodes, msg.name) ==> ProcessModel(nodes, msg, parent) == nodes
  {
    if msg.name !in nodes || HasVisual(nodes, msg.name) {
      var st := StagesOf(nodes, msg, parent);
      ModelStagesConfined(nodes, msg, parent);
    }
  }

  /**
   * The visual loop of ProcessModel starts at 1: a first visual whose name
   * nothing else in the message or the graph carries is not created.
   */
  lemma ModelSkipsFirstVisual(nodes: NodeMap, msg: ModelMsg, parent: ParentRef)
    requires |msg.visuals| > 0 && msg.visuals[0].name !in nodes && msg.visuals[0].name != msg.name
    requires msg.visuals[0].name !in NestedNames(msg)
    ensures msg.visuals[0].name !in ProcessModel(nodes, msg, parent)
  {
    ModelConfined(nodes, msg, parent);
  }

  /**
   * Every later visual of a model whose name is new to the graph and to the
   * model's joints and links is created as a visual under the model.
   */
  lemma ModelCreatesLaterVisuals(nodes: NodeMap, msg: ModelMsg, parent: ParentRef, i: nat)
    requires msg.name !in nodes || HasVisual(nodes, msg.name)
    requires 1 <= i < |msg.visuals| && msg.visuals[i].name !in nodes && msg.visuals[i].name != msg.name
    requires msg.visuals[i].name !in JointNames(msg.joints) + LinkNames(msg.links)
    ensures msg.visuals[i].name in ProcessModel(nodes, msg, parent)
    ensures ProcessModel(nodes, msg, parent)[msg.visuals[i].name].kind == VisualNode
    ensures ProcessModel(nodes, msg, parent)[msg.visuals[i].name].parent == Named(msg.name)
  {
    var st := StagesOf(nodes, msg, parent);
    var v := msg.visuals[i].name;
    ModelStagesConfined(nodes, msg, parent);
    ModelIsStaged(nodes, msg, parent);
    assert v !in st.scaled;
    assert v !in st.withLinks;
    assert SkipFirst(msg.visuals)[i - 1] == msg.visuals[i];
    VisualsCreateNode(st.withLinks, SkipFirst(msg.visuals), Named(msg.name), i - 1);
  }
}
