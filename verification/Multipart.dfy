/**
 Directory trees sent as a flat list of multipart parts (files/multifilereader.go) and read
 back lazily (files/multipartfile.go).  MIME framing and URL escaping are left out: a part is
 its cleaned path, as segments, with its content type and content.
 */
module Multipart {
  import opened Options

  datatype Node =
    | File(content: string)
    | Symlink(target: string)
    | Dir(entries: seq<Entry>)

  datatype Entry = Entry(name: string, node: Node)

  datatype Kind = FilePart | LinkPart | DirPart

  type Path = seq<string>

  datatype Part = Part(path: Path, kind: Kind, content: string)

  // ---------- writing ----------

  function PartOf(dir: Path, e: Entry): (p: Part) {
    match e.node
    case File(c) => Part(dir + [e.name], FilePart, c)
    case Symlink(t) => Part(dir + [e.name], LinkPart, t)
    case Dir(_) => Part(dir + [e.name], DirPart, "")
  }

  /** The parts below an entry. */
  function Below(dir: Path, e: Entry): (r: seq<Part>)
    decreases e, 0
  {
    match e.node
    case Dir(es) => PartsOf(dir + [e.name], es)
    case _ => []
  }

  /** The parts of a directory's entries: a preorder listing. */
  function PartsOf(dir: Path, entries: seq<Entry>): (r: seq<Part>)
    decreases entries, 1
  {
    if entries == [] then []
    else [PartOf(dir, entries[0])] + Below(dir, entries[0]) + PartsOf(dir, entries[1..])
  }

  /** What the writer's two stacks still have to produce: the innermost directory first. */
  ghost function Remaining(files: seq<seq<Entry>>, path: Path): (r: seq<Part>)
    requires |path| == |files|
    decreases |files|
  {
    if files == [] then []
    else
      var k := |files| - 1;
      PartsOf(path[1..], files[k]) + Remaining(files[..k], path[..k])
  }

  /** The writer walks the tree with a stack of directory iterators (each the entries it has
      still to give) and a stack of their names. */
  class MultiFileReader {
    var files: seq<seq<Entry>>
    var path: Path
    var closed: bool

    ghost predicate Valid()
      reads this
    {
      |files| == |path|
    }

    constructor (entries: seq<Entry>)
      ensures Valid() && !closed
      ensures Remaining(files, path) == PartsOf([], entries)
    {
      files, path, closed := [entries], [""], false;
      new;
      assert path[1..] == [] && files[..0] == [] && path[..0] == [];
    }

    /** The next part: pop exhausted directories, then announce the next entry, entering it if
        it is a directory. */
    method NextPart() returns (part: Option<Part>)
      requires Valid()
      modifies this
      ensures Valid()
      ensures part.None? ==> old(Remaining(files, path)) == [] && closed
      ensures part.Some? ==> old(Remaining(files, path)) == [part.value] + Remaining(files, path)
    {
      while true
        invariant Valid() && Remaining(files, path) == old(Remaining(files, path))
        decreases |files|
      {
        if files == [] {
          closed := true;
          return None;
        }
        var k := |files| - 1;
        if files[k] == [] {
          files, path := files[..k], path[..k];
        } else {
          var e := files[k][0];
          part := Some(PartOf(path[1..], e));
          Announced(files, path);
          files := files[k := files[k][1..]];
          if e.node.Dir? {
            Entered(files, path, e);
            files, path := files + [e.node.entries], path + [e.name];
          }
          return;
        }
      }
    }
  }

  lemma Announced(files: seq<seq<Entry>>, path: Path)
    requires |path| == |files| > 0 && files[|files| - 1] != []
    ensures var k := |files| - 1;
            var e := files[k][0];
            Remaining(files, path) ==
              [PartOf(path[1..], e)] + (Below(path[1..], e) + Remaining(files[k := files[k][1..]], path))
  {
    var k := |files| - 1;
    var after := files[k := files[k][1..]];
    assert after[..k] == files[..k];
  }

  lemma Pushed(files: seq<seq<Entry>>, path: Path, es: seq<Entry>, name: string, dir: Path)
    requires |path| == |files| && dir == (path + [name])[1..]
    ensures Remaining(files + [es], path + [name]) == PartsOf(dir, es) + Remaining(files, path)
  {
    var (fs, p, k) := (files + [es], path + [name], |files|);
    assert fs[..k] == files && p[..k] == path && fs[k] == es;
    assert Remaining(fs, p) == PartsOf(p[1..], fs[k]) + Remaining(fs[..k], p[..k]);
  }

  lemma Entered(files: seq<seq<Entry>>, path: Path, e: Entry)
    requires |path| == |files| > 0 && e.node.Dir?
    ensures Remaining(files + [e.node.entries], path + [e.name]) == Below(path[1..], e) + Remaining(files, path)
  {
    var dir := path[1..] + [e.name];
    assert dir == (path + [e.name])[1..];
    assert Below(path[1..], e) == PartsOf(dir, e.node.entries);
    Pushed(files, path, e.node.entries, e.name, dir);
  }

  /** Reading the writer to its end gives the preorder listing of the tree. */
  method WriteAll(entries: seq<Entry>) returns (parts: seq<Part>)
    ensures parts == PartsOf([], entries)
  {
    var mfr := new MultiFileReader(entries);
    parts := [];
    while true
      invariant mfr.Valid() && fresh(mfr)
      invariant parts + Remaining(mfr.files, mfr.path) == PartsOf([], entries)
      decreases |PartsOf([], entries)| - |parts|
    {
      ghost var left := Remaining(mfr.files, mfr.path);
      var part := mfr.NextPart();
      if part.None? { return; }
      assert parts + ([part.value] + left[1..]) == (parts + [part.value]) + left[1..];
      parts := parts + [part.value];
    }
  }

  // ---------- reading ----------

  /** `child` lies below `parent`; the root counts as its own child. */
  predicate IsChild(child: Path, parent: Path) {
    parent <= child && (|child| > |parent| || parent == [])
  }

  datatype FoundNode = FoundFile(content: string) | FoundLink(target: string) | FoundDir(path: Path)

  datatype Found = Found(name: string, node: FoundNode)

  /** What a part turns into once it is consumed. */
  function NodeOf(p: Part): (n: FoundNode) {
    match p.kind
    case FilePart => FoundFile(p.content)
    case LinkPart => FoundLink(p.content)
    case DirPart => FoundDir(p.path)
  }

  /** The next entry of directory `dir` after entry `cur` ("" at first), and the parts left. */
  function NextEntry(dir: Path, cur: string, parts: seq<Part>): (r: (Option<Found>, seq<Part>)) {
    if parts == [] || !IsChild(parts[0].path, dir) then (None, parts)
    else if cur != "" && IsChild(parts[0].path, dir + [cur]) then NextEntry(dir, cur, parts[1..])
    else
      var name := parts[0].path[|dir|..];
      if |name| > 1 then (Some(Found(name[0], FoundDir(dir + [name[0]]))), parts)
      else (Some(Found(if name == [] then "" else name[0], NodeOf(parts[0]))), parts[1..])
  }

  /** The shared cursor over the parts: one part may have been fetched and not consumed yet. */
  class MultipartWalker {
    var part: Option<Part>
    var rest: seq<Part>
    var open: bool

    ghost predicate Valid()
      reads this
    {
      !open ==> part.None? && rest == []
    }

    /** The parts that have not been consumed. */
    ghost function Parts(): (r: seq<Part>)
      reads this
    {
      if part.Some? then [part.value] + rest else rest
    }

    constructor (parts: seq<Part>)
      ensures Valid() && Parts() == parts
    {
      part, rest, open := None, parts, true;
    }

    /** Look at the next part; None at the end of the input, which also drops the reader. */
    method GetPart() returns (p: Option<Part>)
      requires Valid()
      modifies this
      ensures Valid() && Parts() == old(Parts())
      ensures p == if Parts() == [] then None else Some(Parts()[0])
      ensures p == part
    {
      if part.Some? { return part; }
      if !open { return None; }
      if rest == [] {
        open := false;
        return None;
      }
      part, rest := Some(rest[0]), rest[1..];
      return part;
    }

    method ConsumePart()
      requires Valid() && part.Some?
      modifies this`part
      ensures Valid() && Parts() == old(Parts())[1..]
    {
      part := None;
    }
  }

  class MultipartIterator {
    const walker: MultipartWalker
    const dir: Path
    var curName: string
    var curFile: FoundNode

    constructor (walker: MultipartWalker, dir: Path)
      ensures this.walker == walker && this.dir == dir && curName == ""
    {
      this.walker, this.dir, this.curName, this.curFile := walker, dir, "", FoundFile("");
    }

    /** Move on to the next entry of the directory, passing over whatever is left unread of
        the entry before. */
    method Next() returns (ok: bool)
      requires walker.Valid()
      modifies this, walker
      ensures walker.Valid()
      ensures var (found, left) := NextEntry(dir, old(curName), old(walker.Parts()));
              && walker.Parts() == left
              && ok == found.Some?
              && (ok ==> found.value == Found(curName, curFile))
              && (!ok ==> curName == old(curName))
    {
      while walker.open
        invariant walker.Valid() && curName == old(curName)
        invariant NextEntry(dir, curName, walker.Parts()) == NextEntry(dir, old(curName), old(walker.Parts()))
        decreases |walker.Parts()|, walker.open
      {
        var part := walker.GetPart();
        if part.None? { return false; }
        var path := part.value.path;
        if !IsChild(path, dir) { return false; }
        if curName != "" && IsChild(path, dir + [curName]) {
          walker.ConsumePart();
        } else {
          var name := path[|dir|..];
          if |name| > 1 {
            curName, curFile := name[0], FoundDir(dir + [name[0]]);
          } else {
            curName := if name == [] then "" else name[0];
            curFile := NodeOf(part.value);
            walker.ConsumePart();
          }
          return true;
        }
      }
      return false;
    }
  }

  // ---------- a consumer ----------

  /** How a consumer reads a directory: for each entry it looks at, whether it enters it (if it
      is a directory) and how it reads that; it may stop before the end. */
  datatype Plan = Plan(visits: seq<Option<Plan>>)

  datatype SeenNode = SeenFile(content: string) | SeenLink(target: string) | SkippedDir | SeenDir(entries: seq<SeenEntry>)

  datatype SeenEntry = SeenEntry(name: string, node: SeenNode)

  /** Read directory `dir` after entry `cur`, following `visits`. */
  function Read(dir: Path, cur: string, visits: seq<Option<Plan>>, parts: seq<Part>): (r: (seq<SeenEntry>, seq<Part>))
    decreases visits
  {
    if visits == [] then ([], parts)
    else
      var (found, left) := NextEntry(dir, cur, parts);
      if found.None? then ([], left)
      else
        var (node, left') := ReadNode(found.value.node, visits[0], left);
        var (more, left'') := Read(dir, found.value.name, visits[1..], left');
        ([SeenEntry(found.value.name, node)] + more, left'')
  }

  function ReadNode(node: FoundNode, visit: Option<Plan>, parts: seq<Part>): (r: (SeenNode, seq<Part>))
    decreases visit
  {
    match node
    case FoundFile(c) => (SeenFile(c), parts)
    case FoundLink(t) => (SeenLink(t), parts)
    case FoundDir(path) =>
      if visit.None? then (SkippedDir, parts)
      else
        var (entries, left) := Read(path, "", visit.value.visits, parts);
        (SeenDir(entries), left)
  }

  /** What the plan should see of a tree: the tree cut back to what was looked at. */
  function Prune(entries: seq<Entry>, visits: seq<Option<Plan>>): (r: seq<SeenEntry>)
    decreases visits
  {
    if entries == [] || visits == [] then []
    else [SeenEntry(entries[0].name, PruneNode(entries[0].node, visits[0]))] + Prune(entries[1..], visits[1..])
  }

  function PruneNode(node: Node, visit: Option<Plan>): (r: SeenNode)
    decreases visit
  {
    match node
    case File(c) => SeenFile(c)
    case Symlink(t) => SeenLink(t)
    case Dir(es) => if visit.None? then SkippedDir else SeenDir(Prune(es, visit.value.visits))
  }

  predicate ValidName(name: string) {
    name != "" && name != "." && name != ".." && '/' !in name
  }

  /** Names are valid and unique among siblings, all the way down. */
  ghost predicate ValidTree(entries: seq<Entry>)
    decreases entries, 1
  {
    entries != [] ==>
      && ValidName(entries[0].name)
      && ValidNode(entries[0].node)
      && (forall k :: 0 < k < |entries| ==> entries[k].name != entries[0].name)
      && ValidTree(entries[1..])
  }

  ghost predicate ValidNode(node: Node)
    decreases node, 0
  {
    match node
    case Dir(es) => ValidTree(es)
    case _ => true
  }

  lemma {:induction false} NamesAreValid(entries: seq<Entry>, k: nat)
    requires ValidTree(entries) && k < |entries|
    ensures ValidName(entries[k].name)
  {
    if k > 0 { NamesAreValid(entries[1..], k - 1); }
  }

  ghost predicate AllBelow(parts: seq<Part>, dir: Path) {
    forall k :: 0 <= k < |parts| ==> dir < parts[k].path
  }

  lemma {:induction false} PartsAreBelow(dir: Path, entries: seq<Entry>)
    ensures AllBelow(PartsOf(dir, entries), dir)
    decreases entries, 1
  {
    if entries != [] {
      BelowIsBelow(dir, entries[0]);
      PartsAreBelow(dir, entries[1..]);
    }
  }

  lemma {:induction false} BelowIsBelow(dir: Path, e: Entry)
    ensures AllBelow(Below(dir, e), dir + [e.name]) && AllBelow(Below(dir, e), dir)
    decreases e, 0
  {
    if e.node.Dir? {
      PartsAreBelow(dir + [e.name], e.node.entries);
      var parts := Below(dir, e);
      forall k | 0 <= k < |parts| ensures dir < parts[k].path { assert dir < dir + [e.name] < parts[k].path; }
    }
  }

  /** Whatever is left unread of the current entry is passed over. */
  lemma {:induction false} SkipInner(dir: Path, cur: string, inner: seq<Part>, rest: seq<Part>)
    requires AllBelow(inner, dir + [cur]) && (inner != [] ==> cur != "")
    ensures NextEntry(dir, cur, inner + rest) == NextEntry(dir, cur, rest)
  {
    if inner == [] {
      assert inner + rest == rest;
    } else {
      var parts := inner + rest;
      assert dir < dir + [cur] < parts[0].path;
      assert parts[1..] == inner[1..] + rest;
      SkipInner(dir, cur, inner[1..], rest);
    }
  }

  /** The parts that follow a directory's own do not look like its children. */
  ghost predicate Outside(parts: seq<Part>, dir: Path) {
    parts != [] ==> !IsChild(parts[0].path, dir)
  }

  lemma NextOfTree(dir: Path, cur: string, entries: seq<Entry>, tail: seq<Part>)
    requires ValidTree(entries) && Outside(tail, dir)
    requires forall k :: 0 <= k < |entries| ==> entries[k].name != cur
    ensures NextEntry(dir, cur, PartsOf(dir, entries) + tail) ==
              if entries == [] then (None, tail)
              else (Some(Found(entries[0].name, NodeOf(PartOf(dir, entries[0])))),
                    Below(dir, entries[0]) + (PartsOf(dir, entries[1..]) + tail))
  {
    var parts := PartsOf(dir, entries) + tail;
    if entries == [] {
      assert parts == tail;
    } else {
      var e := entries[0];
      assert parts[0] == PartOf(dir, e);
      assert parts[1..] == Below(dir, e) + (PartsOf(dir, entries[1..]) + tail);
      assert parts[0].path == dir + [e.name];
      assert !IsChild(dir + [e.name], dir + [cur]);
      assert parts[0].path[|dir|..] == [e.name];
    }
  }

  /** Siblings, and what follows the directory, are outside each entry. */
  lemma OutsideEntry(dir: Path, name: string, entries: seq<Entry>, tail: seq<Part>)
    requires Outside(tail, dir)
    ensures Outside(PartsOf(dir, entries) + tail, dir + [name])
  {
    var parts := PartsOf(dir, entries) + tail;
    if entries == [] {
      assert parts == tail;
      assert dir < dir + [name];
    } else {
      assert parts[0] == PartOf(dir, entries[0]);
    }
  }

  lemma StopReading(dir: Path, cur: string, inner: seq<Part>, entries: seq<Entry>)
    requires AllBelow(inner, dir + [cur])
    ensures AllBelow(inner + PartsOf(dir, entries), dir)
  {
    PartsAreBelow(dir, entries);
    forall k | 0 <= k < |inner| ensures dir < inner[k].path { assert dir < dir + [cur] < inner[k].path; }
  }

  /** Reading back, from the middle of a directory: `inner` is what the consumer left unread of
      the entry before.  It sees exactly the pruned tree, and leaves at most parts of this
      directory in front of what follows it. */
  lemma {:induction false} ReadsBack(dir: Path, cur: string, visits: seq<Option<Plan>>, inner: seq<Part>,
                                     entries: seq<Entry>, tail: seq<Part>) returns (inner': seq<Part>)
    requires ValidTree(entries) && Outside(tail, dir)
    requires AllBelow(inner, dir + [cur]) && (inner != [] ==> cur != "")
    requires forall k :: 0 <= k < |entries| ==> entries[k].name != cur
    ensures AllBelow(inner', dir)
    ensures Read(dir, cur, visits, inner + (PartsOf(dir, entries) + tail)) == (Prune(entries, visits), inner' + tail)
    decreases visits
  {
    if visits == [] {
      inner' := inner + PartsOf(dir, entries);
      StopReading(dir, cur, inner, entries);
      assert inner + (PartsOf(dir, entries) + tail) == inner' + tail;
    } else {
      SkipInner(dir, cur, inner, PartsOf(dir, entries) + tail);
      NextOfTree(dir, cur, entries, tail);
      if entries == [] {
        inner' := [];
        assert tail == inner' + tail;
      } else {
        var e := entries[0];
        var mid := ReadsBackNode(dir, e, visits[0], PartsOf(dir, entries[1..]) + tail, entries[1..], tail);
        inner' := ReadsBack(dir, e.name, visits[1..], mid, entries[1..], tail);
      }
    }
  }

  lemma {:induction false} ReadsBackNode(dir: Path, e: Entry, visit: Option<Plan>, rest: seq<Part>,
                                         entries: seq<Entry>, tail: seq<Part>) returns (inner: seq<Part>)
    requires ValidName(e.name) && ValidNode(e.node) && rest == PartsOf(dir, entries) + tail && Outside(tail, dir)
    ensures AllBelow(inner, dir + [e.name])
    ensures ReadNode(NodeOf(PartOf(dir, e)), visit, Below(dir, e) + rest) == (PruneNode(e.node, visit), inner + rest)
    decreases visit
  {
    BelowIsBelow(dir, e);
    if e.node.Dir? && visit.Some? {
      OutsideEntry(dir, e.name, entries, tail);
      var es := e.node.entries;
      forall k | 0 <= k < |es| ensures es[k].name != "" { NamesAreValid(es, k); }
      inner := ReadsBack(dir + [e.name], "", visit.value.visits, [], e.node.entries, rest);
      assert [] + (Below(dir, e) + rest) == Below(dir, e) + rest;
    } else {
      inner := Below(dir, e);
    }
  }

  // ---------- the promises ----------

  /** For any plan, reading the parts written for a valid tree shows exactly the tree pruned by
      the plan: siblings after a skipped or half-read directory are the right ones. */
  lemma PlannedReadIsPruned(entries: seq<Entry>, plan: Plan)
    requires ValidTree(entries)
    ensures Read([], "", plan.visits, PartsOf([], entries)).0 == Prune(entries, plan.visits)
  {
    forall k | 0 <= k < |entries| ensures entries[k].name != "" { NamesAreValid(entries, k); }
    var inner := ReadsBack([], "", plan.visits, [], entries, []);
    assert [] + (PartsOf([], entries) + []) == PartsOf([], entries);
  }

  /** The plan that enters everything. */
  function FullVisits(entries: seq<Entry>): (r: seq<Option<Plan>>)
    decreases entries, 1
  {
    if entries == [] then [] else [Some(FullPlan(entries[0].node))] + FullVisits(entries[1..])
  }

  function FullPlan(node: Node): (r: Plan)
    decreases node, 0
  {
    match node
    case Dir(es) => Plan(FullVisits(es))
    case _ => Plan([])
  }

  /** The tree a consumer that has seen everything has in hand. */
  function Rebuild(seen: seq<SeenEntry>): (r: seq<Entry>)
    decreases seen, 1
  {
    if seen == [] then [] else [Entry(seen[0].name, RebuildNode(seen[0].node))] + Rebuild(seen[1..])
  }

  function RebuildNode(node: SeenNode): (r: Node)
    decreases node, 0
  {
    match node
    case SeenFile(c) => File(c)
    case SeenLink(t) => Symlink(t)
    case SkippedDir => Dir([])
    case SeenDir(es) => Dir(Rebuild(es))
  }

  lemma {:induction false} FullPruneIsWhole(entries: seq<Entry>)
    ensures Rebuild(Prune(entries, FullVisits(entries))) == entries
    decreases entries, 1
  {
    if entries != [] {
      FullPruneIsWholeNode(entries[0].node);
      FullPruneIsWhole(entries[1..]);
      var seen := Prune(entries, FullVisits(entries));
      assert FullVisits(entries)[1..] == FullVisits(entries[1..]);
      assert seen[1..] == Prune(entries[1..], FullVisits(entries[1..]));
      assert entries == [entries[0]] + entries[1..];
    }
  }

  lemma {:induction false} FullPruneIsWholeNode(node: Node)
    ensures RebuildNode(PruneNode(node, Some(FullPlan(node)))) == node
    decreases node, 0
  {
    if node.Dir? { FullPruneIsWhole(node.entries); }
  }

  // ---------- the consumer that reads everything ----------

  /** How much deeper the next part lies than `dir`. */
  function Depth(dir: Path, parts: seq<Part>): (r: nat) {
    if parts == [] || |parts[0].path| <= |dir| then 0 else |parts[0].path| - |dir|
  }

  lemma {:induction false} NextEntryMoves(dir: Path, cur: string, parts: seq<Part>)
    ensures var (found, left) := NextEntry(dir, cur, parts);
            && |left| <= |parts|
            && (found.Some? && !found.value.node.FoundDir? ==> |left| < |parts|)
            && (found.Some? && found.value.node.FoundDir? && |left| == |parts| ==>
                  left == parts && |dir| < |found.value.node.path| < |parts[0].path| && IsChild(parts[0].path, found.value.node.path))
            && (found.Some? && found.value.node.FoundDir? ==> |left| < |parts| || IsChild(left[0].path, found.value.node.path))
            && (found.None? && parts != [] && IsChild(parts[0].path, dir) ==> |left| < |parts|)
  {
    if parts != [] && IsChild(parts[0].path, dir) && cur != "" && IsChild(parts[0].path, dir + [cur]) {
      NextEntryMoves(dir, cur, parts[1..]);
    }
  }

  /** Call Next until it says false, and read every directory that it finds in the same way. */
  function ReadAll(dir: Path, cur: string, parts: seq<Part>): (r: (seq<SeenEntry>, seq<Part>))
    ensures |r.1| <= |parts|
    ensures parts != [] && IsChild(parts[0].path, dir) ==> |r.1| < |parts|
    decreases |parts|, Depth(dir, parts)
  {
    NextEntryMoves(dir, cur, parts);
    var (found, left) := NextEntry(dir, cur, parts);
    if found.None? then ([], left)
    else if found.value.node.FoundDir? then
      var (inner, left') := ReadAll(found.value.node.path, "", left);
      var (more, left'') := ReadAll(dir, found.value.name, left');
      ([SeenEntry(found.value.name, SeenDir(inner))] + more, left'')
    else
      var (more, left') := ReadAll(dir, found.value.name, left);
      ([SeenEntry(found.value.name, ReadNode(found.value.node, None, []).0)] + more, left')
  }

  lemma ReadAllStops(dir: Path, cur: string, parts: seq<Part>)
    requires NextEntry(dir, cur, parts).0.None?
    ensures ReadAll(dir, cur, parts) == ([], NextEntry(dir, cur, parts).1)
  {
  }

  /** The same consumer over the iterators. */
  method ReadWhole(it: MultipartIterator) returns (seen: seq<SeenEntry>)
    requires it.walker.Valid()
    modifies it, it.walker
    ensures it.walker.Valid() && (seen, it.walker.Parts()) == ReadAll(it.dir, old(it.curName), old(it.walker.Parts()))
    decreases |it.walker.Parts()|, Depth(it.dir, it.walker.Parts())
  {
    ghost var cur, parts := it.curName, it.walker.Parts();
    NextEntryMoves(it.dir, cur, parts);
    var ok := it.Next();
    if !ok {
      seen := [];
      ReadAllStops(it.dir, cur, parts);
      return;
    }
    var name, node := it.curName, it.curFile;
    var seenNode: SeenNode;
    match node {
      case FoundFile(content) => seenNode := SeenFile(content);
      case FoundLink(target) => seenNode := SeenLink(target);
      case FoundDir(path) =>
        var inner := new MultipartIterator(it.walker, path);
        var entries := ReadWhole(inner);
        seenNode := SeenDir(entries);
    }
    var more := ReadWhole(it);
    seen := [SeenEntry(name, seenNode)] + more;
  }

  lemma {:induction false} ReadsAll(dir: Path, cur: string, entries: seq<Entry>, tail: seq<Part>)
    requires ValidTree(entries) && Outside(tail, dir) && forall k :: 0 <= k < |entries| ==> entries[k].name != cur
    ensures ReadAll(dir, cur, PartsOf(dir, entries) + tail) == (Prune(entries, FullVisits(entries)), tail)
    decreases entries, 1
  {
    NextOfTree(dir, cur, entries, tail);
    if entries != [] {
      var e, rest := entries[0], PartsOf(dir, entries[1..]) + tail;
      if e.node.Dir? { ReadsAllBelow(dir, e, entries[1..], tail); }
      ReadsAll(dir, e.name, entries[1..], tail);
      assert FullVisits(entries)[0] == Some(FullPlan(e.node)) && FullVisits(entries)[1..] == FullVisits(entries[1..]);
      if !e.node.Dir? { assert Below(dir, e) + rest == rest; }
    }
  }

  lemma {:induction false} ReadsAllBelow(dir: Path, e: Entry, entries: seq<Entry>, tail: seq<Part>)
    requires e.node.Dir? && ValidNode(e.node) && Outside(tail, dir)
    ensures var rest := PartsOf(dir, entries) + tail;
            ReadAll(dir + [e.name], "", Below(dir, e) + rest) == (Prune(e.node.entries, FullVisits(e.node.entries)), rest)
    decreases e, 0
  {
    OutsideEntry(dir, e.name, entries, tail);
    var es := e.node.entries;
    forall k | 0 <= k < |es| ensures es[k].name != "" { NamesAreValid(es, k); }
    ReadsAll(dir + [e.name], "", es, PartsOf(dir, entries) + tail);
  }

  /** Writing a valid tree, and calling Next until it says false in every directory it finds,
      gives the same tree. */
  lemma RoundTrip(entries: seq<Entry>)
    requires ValidTree(entries)
    ensures Rebuild(ReadAll([], "", PartsOf([], entries)).0) == entries
  {
    forall k | 0 <= k < |entries| ensures entries[k].name != "" { NamesAreValid(entries, k); }
    ReadsAll([], "", entries, []);
    assert PartsOf([], entries) + [] == PartsOf([], entries);
    FullPruneIsWhole(entries);
  }

  // ---------- paths as strings ----------

  /** A path as the source writes it: "/" for the root, otherwise a slash before each segment. */
  function Render(path: Path): (r: string) {
    if path == [] then "/" else RenderSegments(path)
  }

  function RenderSegments(path: Path): (r: string) {
    if path == [] then "" else "/" + path[0] + RenderSegments(path[1..])
  }

  function DirName(filename: string): (r: string) {
    if filename != "" && filename[|filename| - 1] == '/' then filename else filename + "/"
  }

  predicate ValidPath(path: Path) {
    forall k :: 0 <= k < |path| ==> ValidName(path[k])
  }

  lemma {:induction false} RenderLast(path: Path)
    requires ValidPath(path) && path != []
    ensures |RenderSegments(path)| > 0 && RenderSegments(path)[|RenderSegments(path)| - 1] != '/'
  {
    if |path| == 1 {
      assert RenderSegments(path[1..]) == "";
      assert RenderSegments(path) == "/" + path[0];
    } else {
      RenderLast(path[1..]);
    }
  }

  /** A segment ends at the next slash, so equal renderings start with equal segments. */
  lemma SegmentEnds(a: string, x: string, b: string, y: string)
    requires '/' !in a && '/' !in b && x != "" && x[0] == '/' && a + x <= b + y && (y == "" || y[0] == '/')
    ensures a == b && x <= y
  {
    var (l, r) := (a + x, b + y);
    assert l[|a|] == '/' && forall k :: 0 <= k < |l| ==> l[k] == r[k];
    assert forall k :: 0 <= k < |a| ==> l[k] == a[k] != '/';
    assert forall k :: 0 <= k < |b| ==> r[k] == b[k] != '/';
    assert |b| < |r| ==> r[|b|] == '/';
    assert a == l[..|a|] == r[..|a|] == b;
    assert x == l[|a|..] && y == r[|a|..];
  }

  lemma RenderCons(path: Path, after: string)
    requires path != []
    ensures RenderSegments(path) + after == "/" + (path[0] + (RenderSegments(path[1..]) + after))
  {
  }

  lemma PrefixTail(a: string, b: string)
    ensures "/" + a <= "/" + b <==> a <= b
  {
    assert ("/" + a)[1..] == a && ("/" + b)[1..] == b;
    if a <= b { assert b == a + b[|a|..]; assert "/" + b == ("/" + a) + b[|a|..]; }
  }

  lemma {:induction false} PrefixSegments(child: Path, parent: Path)
    requires ValidPath(child) && ValidPath(parent)
    ensures RenderSegments(parent) + "/" <= RenderSegments(child) <==> parent < child
  {
    if parent == [] {
      assert "" + "/" == "/";
      if child != [] { assert RenderSegments(child)[0] == '/'; }
    } else if child != [] {
      var (x, y) := (RenderSegments(parent[1..]) + "/", RenderSegments(child[1..]));
      PrefixSegments(child[1..], parent[1..]);
      RenderCons(parent, "/");
      RenderCons(child, "");
      assert RenderSegments(child) + "" == RenderSegments(child) && y + "" == y;
      PrefixTail(parent[0] + x, child[0] + y);
      FirstSegment(parent[0], x, child[0], y);
      PrefixCons(parent, child);
    }
  }

  lemma FirstSegment(a: string, x: string, b: string, y: string)
    requires '/' !in a && '/' !in b && x != "" && x[0] == '/' && (y == "" || y[0] == '/')
    ensures a + x <= b + y <==> a == b && x <= y
  {
    if a + x <= b + y {
      SegmentEnds(a, x, b, y);
    }
    if a == b && x <= y {
      assert y == x + y[|x|..];
      assert b + y == (a + x) + y[|x|..];
    }
  }

  lemma PrefixCons(parent: Path, child: Path)
    requires parent != [] && child != []
    ensures parent < child <==> parent[0] == child[0] && parent[1..] < child[1..]
  {
    assert parent == [parent[0]] + parent[1..] && child == [child[0]] + child[1..];
  }

  /** The source's test, a string prefix of the parent with a slash appended, is exactly
      IsChild on segments, because no name contains a slash. */
  lemma StringPrefixIsChild(child: Path, parent: Path)
    requires ValidPath(child) && ValidPath(parent)
    ensures DirName(Render(parent)) <= Render(child) <==> IsChild(child, parent)
  {
    if parent == [] {
      if child != [] { assert RenderSegments(child)[0] == '/'; }
    } else {
      RenderLast(parent);
      PrefixSegments(child, parent);
      if child == [] { assert |DirName(Render(parent))| > 1; }
    }
  }

  /** A path without its leading slash. */
  function Joined(path: Path): (r: string)
    requires path != []
  {
    path[0] + RenderSegments(path[1..])
  }

  lemma {:induction false} RenderSplit(path: Path, n: nat)
    requires n <= |path|
    ensures RenderSegments(path) == RenderSegments(path[..n]) + RenderSegments(path[n..])
  {
    if n == 0 {
      assert path[..0] == [] && path[0..] == path;
    } else {
      var (rest, front) := (path[1..], path[..n]);
      RenderSplit(rest, n - 1);
      assert rest[..n - 1] == front[1..] && rest[n - 1..] == path[n..] && front[0] == path[0];
    }
  }

  /** makeRelative: what is left of a child's path without the parent's prefix is the segments
      after the parent's, joined. */
  lemma TrimmedIsRelative(child: Path, parent: Path)
    requires ValidPath(child) && ValidPath(parent) && parent < child
    ensures DirName(Render(parent)) + Joined(child[|parent|..]) == Render(child)
  {
    var rest := child[|parent|..];
    RenderSplit(child, |parent|);
    assert child[..|parent|] == parent;
    assert RenderSegments(rest) == "/" + Joined(rest);
    if parent != [] { RenderLast(parent); }
  }

  lemma {:induction false} SlashInSegments(path: Path)
    requires path != []
    ensures RenderSegments(path) != "" && RenderSegments(path)[0] == '/'
  {
  }

  /** Looking for a slash in the relative path tells whether it has more than one segment, and
      what stands before the first slash is the first segment. */
  lemma FirstSlash(path: Path)
    requires ValidPath(path) && path != []
    ensures '/' in Joined(path) <==> |path| > 1
    ensures path[0] <= Joined(path) && '/' !in path[0]
    ensures |path| > 1 ==> |path[0]| < |Joined(path)| && Joined(path)[|path[0]|] == '/'
  {
    if |path| > 1 {
      SlashInSegments(path[1..]);
      assert Joined(path)[|path[0]|] == '/';
    } else {
      assert Joined(path) == path[0];
    }
  }
}
