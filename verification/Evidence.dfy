/** The bound on supplied evidence (`bounded_evidence` in scripts/apple_brief_demo.py). */
module Evidence {
  import opened Text
  import opened Json
  import opened CanonicalJson

  const MAX_NODES := 128
  const MAX_DEPTH := 8
  const MAX_BYTES := 2048
  const SAFE_INTEGER := 9007199254740991

  // ----- what is admitted -----

  /** Values in the tree, containers included. */
  function Nodes(v: Json): nat {
    match v
    case Arr(items) => 1 + ItemNodes(items)
    case Obj(members) => 1 + MemberNodes(members)
    case _ => 1
  }

  function ItemNodes(items: Items): nat {
    match items
    case NoItems => 0
    case Item(v, rest) => Nodes(v) + ItemNodes(rest)
  }

  function MemberNodes(ms: Members): nat {
    match ms
    case NoMembers => 0
    case Member(_, v, rest) => Nodes(v) + MemberNodes(rest)
  }

  function Max(a: nat, b: nat): nat {
    if a < b then b else a
  }

  /** The length of the longest path from the value to one nested in it. */
  function Height(v: Json): nat {
    match v
    case Arr(items) => ItemsHeight(items)
    case Obj(members) => MembersHeight(members)
    case _ => 0
  }

  function ItemsHeight(items: Items): nat {
    match items
    case NoItems => 0
    case Item(v, rest) => Max(1 + Height(v), ItemsHeight(rest))
  }

  function MembersHeight(ms: Members): nat {
    match ms
    case NoMembers => 0
    case Member(_, v, rest) => Max(1 + Height(v), MembersHeight(rest))
  }

  /** Text, booleans, null and safe integers. */
  predicate LeafAdmitted(v: Json) {
    v.Null? || v.Bool? || v.Str? || (v.Int? && -9007199254740991 <= v.n <= 9007199254740991)
  }

  predicate LeavesAdmitted(v: Json) {
    match v
    case Arr(items) => ItemLeavesAdmitted(items)
    case Obj(members) => MemberLeavesAdmitted(members)
    case _ => LeafAdmitted(v)
  }

  predicate ItemLeavesAdmitted(items: Items) {
    match items
    case NoItems => true
    case Item(v, rest) => LeavesAdmitted(v) && ItemLeavesAdmitted(rest)
  }

  predicate MemberLeavesAdmitted(ms: Members) {
    match ms
    case NoMembers => true
    case Member(_, v, rest) => LeavesAdmitted(v) && MemberLeavesAdmitted(rest)
  }

  predicate Fits(v: Json) {
    && v.Obj?
    && Nodes(v) <= 128
    && Height(v) <= 8
    && LeavesAdmitted(v)
    && Canonical(v).Ok?
    && ByteLength(Canonical(v).value) <= 2048
  }

  /** `abs(n)` */
  function Magnitude(n: int): nat {
    if n < 0 then -n else n
  }

  // ----- the stack -----

  datatype Frame = Frame(value: Json, depth: nat)

  function ItemFrames(items: Items, depth: nat): seq<Frame> {
    match items
    case NoItems => []
    case Item(v, rest) => [Frame(v, depth)] + ItemFrames(rest, depth)
  }

  function MemberFrames(ms: Members, depth: nat): seq<Frame> {
    match ms
    case NoMembers => []
    case Member(_, v, rest) => [Frame(v, depth)] + MemberFrames(rest, depth)
  }

  /** What popping a frame pushes. */
  function Children(f: Frame): seq<Frame> {
    match f.value
    case Arr(items) => ItemFrames(items, f.depth + 1)
    case Obj(members) => MemberFrames(members, f.depth + 1)
    case _ => []
  }

  function PendingNodes(stack: seq<Frame>): nat {
    if stack == [] then 0 else Nodes(stack[0].value) + PendingNodes(stack[1..])
  }

  predicate FrameFits(f: Frame) {
    f.depth + Height(f.value) <= MAX_DEPTH && LeavesAdmitted(f.value)
  }

  predicate StackFits(stack: seq<Frame>) {
    stack == [] || (FrameFits(stack[0]) && StackFits(stack[1..]))
  }

  lemma {:induction false} PendingAppend(a: seq<Frame>, b: seq<Frame>)
    ensures PendingNodes(a + b) == PendingNodes(a) + PendingNodes(b)
    ensures StackFits(a + b) <==> StackFits(a) && StackFits(b)
  {
    if a == [] {
      assert a + b == b;
    } else {
      PendingAppend(a[1..], b);
      assert (a + b)[1..] == a[1..] + b;
    }
  }

  lemma {:induction false} ItemFramesPending(items: Items, depth: nat)
    ensures PendingNodes(ItemFrames(items, depth)) == ItemNodes(items)
    ensures depth <= MAX_DEPTH + 1 ==>
              (StackFits(ItemFrames(items, depth))
               <==> depth + ItemsHeight(items) <= MAX_DEPTH + 1 && ItemLeavesAdmitted(items))
  {
    if items.Item? {
      ItemFramesPending(items.rest, depth);
      assert ItemFrames(items, depth)[1..] == ItemFrames(items.rest, depth);
    }
  }

  lemma {:induction false} MemberFramesPending(ms: Members, depth: nat)
    ensures PendingNodes(MemberFrames(ms, depth)) == MemberNodes(ms)
    ensures depth <= MAX_DEPTH + 1 ==>
              (StackFits(MemberFrames(ms, depth))
               <==> depth + MembersHeight(ms) <= MAX_DEPTH + 1 && MemberLeavesAdmitted(ms))
  {
    if ms.Member? {
      MemberFramesPending(ms.rest, depth);
      assert MemberFrames(ms, depth)[1..] == MemberFrames(ms.rest, depth);
    }
  }

  /** Popping a frame takes one node off the pending ones, and what is pushed decides whether the frame fits. */
  lemma PopConserves(f: Frame)
    ensures Nodes(f.value) == 1 + PendingNodes(Children(f))
    ensures FrameFits(f) <==>
              f.depth <= MAX_DEPTH && StackFits(Children(f)) && (f.value.Arr? || f.value.Obj? || LeafAdmitted(f.value))
  {
    match f.value
    case Arr(items) => ItemFramesPending(items, f.depth + 1);
    case Obj(members) => MemberFramesPending(members, f.depth + 1);
    case _ =>
  }

  lemma Popped(stack: seq<Frame>)
    requires stack != []
    ensures var frame, below := stack[|stack| - 1], stack[..|stack| - 1];
            && PendingNodes(stack) == PendingNodes(below) + 1 + PendingNodes(Children(frame))
            && (StackFits(stack) <==> StackFits(below) && FrameFits(frame))
            && (FrameFits(frame) <==>
                 && frame.depth <= MAX_DEPTH
                 && StackFits(Children(frame))
                 && (frame.value.Arr? || frame.value.Obj? || LeafAdmitted(frame.value)))
  {
    var frame, below := stack[|stack| - 1], stack[..|stack| - 1];
    assert stack == below + [frame];
    PendingAppend(below, [frame]);
    PopConserves(frame);
  }

  /**
   * The explicit stack accepts exactly the objects the recursive definitions accept, and it always stops: nodes
   * popped and nodes pending always add up to the nodes of the evidence.
   */
  method BoundedEvidence(value: Json) returns (ok: bool)
    ensures ok <==> Fits(value)
  {
    if !value.Obj? {
      return false;
    }
    var stack, nodes := [Frame(value, 0)], 0;
    while stack != []
      invariant nodes + PendingNodes(stack) == Nodes(value)
      invariant nodes <= MAX_NODES
      invariant StackFits(stack) <==> Height(value) <= MAX_DEPTH && LeavesAdmitted(value)
      decreases PendingNodes(stack)
    {
      var frame, below := stack[|stack| - 1], stack[..|stack| - 1];
      Popped(stack);
      nodes := nodes + 1;
      if nodes > MAX_NODES || frame.depth > MAX_DEPTH {
        return false;
      }
      match frame.value {
        case Obj(_) =>
        case Arr(_) =>
        case Null =>
        case Str(_) =>
        case Bool(_) =>
        case Int(n) =>
          if Magnitude(n) > SAFE_INTEGER {
            return false;
          }
        case Float(_) =>
          return false;
      }
      PendingAppend(below, Children(frame));
      stack := below + Children(frame);
    }
    var text := Canonical(value);
    ok := text.Ok? && ByteLength(text.value) <= MAX_BYTES;
  }

  /** Admitted evidence never holds a float, so its canonical text exists and reads back as the same object. */
  lemma {:induction false} AdmittedIsFloatFree(v: Json)
    requires LeavesAdmitted(v)
    ensures FloatFree(v)
  {
    match v
    case Arr(items) => AdmittedItemsAreFloatFree(items);
    case Obj(members) => AdmittedMembersAreFloatFree(members);
    case _ =>
  }

  lemma {:induction false} AdmittedItemsAreFloatFree(items: Items)
    requires ItemLeavesAdmitted(items)
    ensures FloatFreeItems(items)
  {
    if items.Item? {
      AdmittedIsFloatFree(items.first);
      AdmittedItemsAreFloatFree(items.rest);
    }
  }

  lemma {:induction false} AdmittedMembersAreFloatFree(ms: Members)
    requires MemberLeavesAdmitted(ms)
    ensures FloatFreeMembers(ms)
  {
    if ms.Member? {
      AdmittedIsFloatFree(ms.value);
      AdmittedMembersAreFloatFree(ms.rest);
    }
  }
}
