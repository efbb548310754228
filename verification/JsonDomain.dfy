/** The domain walk over a parsed value: the explicit-stack loop finds the same first fault, with
    the same category and path text, as a recursive preorder walk. */
module JsonDomain {
  import opened Options
  import opened Json

  datatype Fault = KeyCharset(detail: Text) | InvalidUnicode(detail: Text) | ValueDomain(detail: Text)

  function Ascii(s: string): Text {
    seq(|s|, i requires 0 <= i < |s| => s[i] as nat)
  }

  predicate IsSurrogate(code: nat) { 0xD800 <= code <= 0xDFFF }

  /** One or more characters from a-z and underscore. */
  predicate IsKey(key: Text) {
    key != [] && forall i :: 0 <= i < |key| ==> 97 <= key[i] <= 122 || key[i] == 95
  }

  /** Every object has one value per key; the parser builds no others. */
  ghost predicate Paired(v: Value) {
    && (v.Obj? ==> |v.keys| == |v.items|)
    && (v.IsContainer() ==> forall i :: 0 <= i < |v.items| ==> Paired(v.items[i]))
  }

  // ------------------------------------------------------------ recursive walk

  function Walk(v: Value, path: Text): Option<Fault>
    requires Paired(v)
    decreases v
  {
    match v
    case Str(text) =>
      if exists i :: 0 <= i < |text| && IsSurrogate(text[i]) then Some(InvalidUnicode(path)) else None
    case Obj(keys, items) => WalkMembers(keys, items, path)
    case _ => Some(ValueDomain(if path == [] then Ascii("root") else path))
  }

  /** Each key is checked before its value, and both before the next member. */
  function WalkMembers(keys: seq<Text>, items: seq<Value>, path: Text): Option<Fault>
    requires |keys| == |items| && forall i :: 0 <= i < |items| ==> Paired(items[i])
    decreases items
  {
    if items == [] then None
    else if !IsKey(keys[0]) then Some(KeyCharset(path + keys[0] + Ascii(" (key charset)")))
    else
      var first := Walk(items[0], path + keys[0] + Ascii("."));
      if first.Some? then first else WalkMembers(keys[1..], items[1..], path)
  }

  /** The value lies in the protocol domain: objects and strings only, clean keys, no surrogate. */
  ghost predicate InDomain(v: Value) {
    match v
    case Str(text) => forall i :: 0 <= i < |text| ==> !IsSurrogate(text[i])
    case Obj(keys, items) =>
      && (forall i :: 0 <= i < |keys| ==> IsKey(keys[i]))
      && forall i :: 0 <= i < |items| ==> InDomain(items[i])
    case _ => false
  }

  lemma {:induction false} WalkAcceptsDomain(v: Value, path: Text)
    requires Paired(v)
    ensures Walk(v, path) == None <==> InDomain(v)
    decreases v
  {
    match v
    case Obj(keys, items) => MembersAcceptDomain(keys, items, path);
    case _ =>
  }

  lemma {:induction false} MembersAcceptDomain(keys: seq<Text>, items: seq<Value>, path: Text)
    requires |keys| == |items| && forall i :: 0 <= i < |items| ==> Paired(items[i])
    ensures WalkMembers(keys, items, path) == None
       <==> (forall i :: 0 <= i < |keys| ==> IsKey(keys[i])) && forall i :: 0 <= i < |items| ==> InDomain(items[i])
    decreases items
  {
    if items != [] {
      WalkAcceptsDomain(items[0], path + keys[0] + Ascii("."));
      MembersAcceptDomain(keys[1..], items[1..], path);
      assert forall i :: 0 < i < |items| ==> items[i] == items[1..][i - 1] && keys[i] == keys[1..][i - 1];
    }
  }

  // -------------------------------------------------- which fault, and where

  /** What the walk looks at: the key or the value of the member that a row of indexes leads to; the empty row is the root. */
  datatype Site = KeyAt(pos: seq<nat>) | ValueAt(pos: seq<nat>)

  ghost predicate IsNode(v: Value, pos: seq<nat>)
    requires Paired(v)
    decreases |pos|
  {
    pos == [] || (v.Obj? && pos[0] < |v.items| && IsNode(v.items[pos[0]], pos[1..]))
  }

  ghost predicate IsSite(v: Value, s: Site)
    requires Paired(v)
  {
    IsNode(v, s.pos) && (s.KeyAt? ==> s.pos != [])
  }

  /** The keys down to a site, each closed by a dot, after the path of the root. */
  ghost function PathTo(v: Value, path: Text, pos: seq<nat>): Text
    requires Paired(v) && IsNode(v, pos)
    decreases |pos|
  {
    if pos == [] then path else PathTo(v.items[pos[0]], path + v.keys[pos[0]] + [46], pos[1..])
  }

  ghost function NodeAt(v: Value, pos: seq<nat>): (n: Value)
    requires Paired(v) && IsNode(v, pos)
    ensures Paired(n)
    decreases |pos|
  {
    if pos == [] then v else NodeAt(v.items[pos[0]], pos[1..])
  }

  /** The key of a member and the path of its object. */
  ghost function KeyOf(v: Value, path: Text, pos: seq<nat>): (Text, Text)
    requires Paired(v) && IsNode(v, pos) && pos != []
    decreases |pos|
  {
    if |pos| == 1 then (v.keys[pos[0]], path) else KeyOf(v.items[pos[0]], path + v.keys[pos[0]] + [46], pos[1..])
  }

  /** The fault of one site alone: a key outside its characters, a text with a surrogate, a value that is neither text nor object. */
  ghost function SiteFault(v: Value, path: Text, s: Site): Option<Fault>
    requires Paired(v) && IsSite(v, s)
  {
    match s
    case KeyAt(pos) =>
      var (key, at) := KeyOf(v, path, pos);
      if key != [] && forall i :: 0 <= i < |key| ==> 97 <= key[i] <= 122 || key[i] == 95 then None
      else Some(KeyCharset(at + key + Ascii(" (key charset)")))
    case ValueAt(pos) =>
      var n, at := NodeAt(v, pos), PathTo(v, path, pos);
      if n.Obj? then None
      else if !n.Str? then Some(ValueDomain(if at == [] then Ascii("root") else at))
      else if exists i :: 0 <= i < |n.text| && 0xD800 <= n.text[i] <= 0xDFFF then Some(InvalidUnicode(at))
      else None
  }

  /** Document order: an object before its members, members in their order, a key before its value. */
  predicate Precedes(p: seq<nat>, q: seq<nat>)
    decreases |p|
  {
    q != [] && (p == [] || p[0] < q[0] || (p[0] == q[0] && Precedes(p[1..], q[1..])))
  }

  predicate Before(s: Site, t: Site) { Precedes(s.pos, t.pos) || (s.pos == t.pos && s.KeyAt? && t.ValueAt?) }

  ghost predicate Clean(v: Value, path: Text, s: Site)
    requires Paired(v)
  {
    IsSite(v, s) ==> SiteFault(v, path, s) == None
  }

  function Under(k: nat, s: Site): Site { match s case KeyAt(p) => KeyAt([k] + p) case ValueAt(p) => ValueAt([k] + p) }

  /** The walk answers with the fault of the first faulty site in document order, and with none when there is none. */
  lemma {:induction false} WalkFindsFirst(v: Value, path: Text) returns (s: Site)
    requires Paired(v)
    ensures Walk(v, path).None? ==> forall t: Site :: Clean(v, path, t)
    ensures Walk(v, path).Some? ==> IsSite(v, s) && SiteFault(v, path, s) == Walk(v, path) && forall t: Site :: Before(t, s) ==> Clean(v, path, t)
    decreases v, if v.Obj? then |v.items| + 1 else 0
  {
    s := ValueAt([]);
    if v.Obj? {
      s := MembersFindFirst(v, path, 0);
      assert v.keys[0..] == v.keys && v.items[0..] == v.items;
      forall t: Site ensures t.pos == [] ==> Clean(v, path, t) {
      }
    } else {
      forall t | IsSite(v, t) ensures t == ValueAt([]) {
      }
    }
  }

  lemma {:induction false} MembersFindFirst(v: Value, path: Text, k: nat) returns (s: Site)
    requires v.Obj? && Paired(v) && k <= |v.items|
    ensures var w := WalkMembers(v.keys[k..], v.items[k..], path);
            && (w.None? ==> forall t: Site :: t.pos != [] && t.pos[0] >= k ==> Clean(v, path, t))
            && (w.Some? ==>
                  && IsSite(v, s) && s.pos != [] && s.pos[0] >= k && SiteFault(v, path, s) == w
                  && forall t: Site :: t.pos != [] && t.pos[0] >= k && Before(t, s) ==> Clean(v, path, t))
    decreases v, |v.items| - k
  {
    s := ValueAt([]);
    if k < |v.items| {
      var keys, items, item := v.keys[k..], v.items[k..], v.items[k];
      var below := path + v.keys[k] + [46];
      assert keys[1..] == v.keys[k + 1..] && items[1..] == v.items[k + 1..];
      assert Ascii(".") == [46];
      if !IsKey(keys[0]) {
        s := KeyAt([k]);
        forall t: Site | t.pos != [] && t.pos[0] >= k ensures !Before(t, s) { NothingBefore(t.pos, k); }
      } else {
        s := WalkFindsFirst(item, below);
        forall t: Site | t.pos != [] && t.pos[0] == k ensures MemberClean(v, path, k, t) { MemberSite(v, path, k, t); }
        if Walk(item, below).Some? {
          FirstInMember(v, path, k, s);
          s := Under(k, s);
        } else {
          s := MembersFindFirst(v, path, k + 1);
          forall t: Site | t.pos != [] && t.pos[0] == k ensures Clean(v, path, t) {
            assert MemberClean(v, path, k, t);
            assert t != KeyAt([k]) ==> Clean(item, below, Inside(t));
          }
        }
      }
    }
  }

  lemma NothingBefore(p: seq<nat>, k: nat)
    requires p != [] && p[0] >= k
    ensures !Precedes(p, [k])
  {
    assert [k][1..] == [];
  }

  function Inside(t: Site): Site
    requires t.pos != []
  {
    match t case KeyAt(p) => KeyAt(p[1..]) case ValueAt(p) => ValueAt(p[1..])
  }

  /** A site of a member is clean when its key is, or when it is clean inside the member. */
  ghost predicate MemberClean(v: Value, path: Text, k: nat, t: Site)
    requires v.Obj? && Paired(v) && k < |v.items| && t.pos != []
  {
    var below := path + v.keys[k] + [46];
    if t == KeyAt([k]) then IsKey(v.keys[k]) ==> Clean(v, path, t) else Clean(v, path, t) <==> Clean(v.items[k], below, Inside(t))
  }

  lemma MemberSite(v: Value, path: Text, k: nat, t: Site)
    requires v.Obj? && Paired(v) && k < |v.items| && t.pos != [] && t.pos[0] == k
    ensures MemberClean(v, path, k, t)
    ensures t != KeyAt([k]) && IsSite(v, t) ==>
              IsSite(v.items[k], Inside(t)) && SiteFault(v, path, t) == SiteFault(v.items[k], path + v.keys[k] + [46], Inside(t))
  {
    if t.KeyAt? && |t.pos| == 1 { assert t.pos == [k]; }
  }

  lemma FirstInMember(v: Value, path: Text, k: nat, s: Site)
    requires v.Obj? && Paired(v) && k < |v.items| && IsKey(v.keys[k])
    requires var below := path + v.keys[k] + [46];
             IsSite(v.items[k], s) && SiteFault(v.items[k], below, s).Some? && forall t: Site :: Before(t, s) ==> Clean(v.items[k], below, t)
    ensures var below := path + v.keys[k] + [46];
            var u := Under(k, s);
            && IsSite(v, u) && SiteFault(v, path, u) == SiteFault(v.items[k], below, s)
            && forall t: Site :: t.pos != [] && t.pos[0] >= k && Before(t, u) ==> Clean(v, path, t)
  {
    var u := Under(k, s);
    assert u.pos[1..] == s.pos && Inside(u) == s;
    MemberSite(v, path, k, u);
    forall t: Site | t.pos != [] && t.pos[0] >= k && Before(t, u) ensures Clean(v, path, t) {
      assert t.pos[0] == k;
      MemberSite(v, path, k, t);
      if t != KeyAt([k]) { assert Before(Inside(t), s); }
    }
  }

  // ------------------------------------------------------- explicit-stack walk

  datatype Job = CheckKey(key: Text, path: Text) | CheckValue(node: Value, path: Text)

  ghost predicate PairedJob(j: Job) {
    j.CheckValue? ==> Paired(j.node)
  }

  ghost predicate PairedJobs(js: seq<Job>) {
    forall i :: 0 <= i < |js| ==> PairedJob(js[i])
  }

  function JobFault(j: Job): Option<Fault>
    requires PairedJob(j)
  {
    match j
    case CheckKey(key, path) => if IsKey(key) then None else Some(KeyCharset(path + key + Ascii(" (key charset)")))
    case CheckValue(node, path) => Walk(node, path)
  }

  /** The first fault met when the stack is worked off from its top, the last element. */
  function StackFault(stack: seq<Job>): Option<Fault>
    requires PairedJobs(stack)
  {
    if stack == [] then None else
      var top := JobFault(stack[|stack| - 1]);
      if top.Some? then top else StackFault(stack[..|stack| - 1])
  }

  ghost function JobSize(j: Job): nat {
    if j.CheckValue? then 2 * j.node.Size() - 1 else 1
  }

  ghost function StackSize(stack: seq<Job>): nat {
    if stack == [] then 0 else StackSize(stack[..|stack| - 1]) + JobSize(stack[|stack| - 1])
  }

  /** The jobs of an object's members in member order, each key before its value. */
  ghost function Members(keys: seq<Text>, items: seq<Value>, path: Text): seq<Job>
    requires |keys| == |items|
  {
    if items == [] then [] else
      [CheckKey(keys[0], path), CheckValue(items[0], path + keys[0] + Ascii("."))] + Members(keys[1..], items[1..], path)
  }

  function Reverse(js: seq<Job>): seq<Job> {
    if js == [] then [] else Reverse(js[1..]) + [js[0]]
  }

  lemma {:induction false} PushMembers(rest: seq<Job>, keys: seq<Text>, items: seq<Value>, path: Text)
    requires |keys| == |items| && PairedJobs(rest) && forall i :: 0 <= i < |items| ==> Paired(items[i])
    ensures var pushed := rest + Reverse(Members(keys, items, path));
            var w := WalkMembers(keys, items, path);
            && PairedJobs(pushed)
            && StackFault(pushed) == (if w.Some? then w else StackFault(rest))
            && StackSize(pushed) == StackSize(rest) + 2 * TotalSize(items)
    decreases items
  {
    var jobs := Members(keys, items, path);
    if items == [] {
      assert rest + Reverse(jobs) == rest;
    } else {
      var below := rest + Reverse(Members(keys[1..], items[1..], path));
      PushMembers(rest, keys[1..], items[1..], path);
      ReverseTwo(jobs);
      assert jobs[2..] == Members(keys[1..], items[1..], path);
      var value, key := jobs[1], jobs[0];
      var whole := below + [value] + [key];
      assert rest + Reverse(jobs) == whole;
      assert whole[..|whole| - 1] == below + [value] && (below + [value])[..|below|] == below;
    }
  }

  lemma ReverseTwo(js: seq<Job>)
    requires |js| >= 2
    ensures Reverse(js) == Reverse(js[2..]) + [js[1]] + [js[0]]
  {
    assert js[1..][1..] == js[2..];
  }

  method CheckDomain(root: Value, path: Text) returns (fault: Option<Fault>)
    requires Paired(root)
    ensures fault == Walk(root, path)
  {
    var stack := [CheckValue(root, path)];
    while stack != []
      invariant PairedJobs(stack)
      invariant StackFault(stack) == Walk(root, path)
      decreases StackSize(stack)
    {
      var job := stack[|stack| - 1];
      stack := stack[..|stack| - 1];
      match job
      case CheckKey(key, at) =>
        if !IsKey(key) {
          return Some(KeyCharset(at + key + Ascii(" (key charset)")));
        }
      case CheckValue(node, at) =>
        match node
        case Str(text) =>
          for i := 0 to |text|
            invariant forall j :: 0 <= j < i ==> !IsSurrogate(text[j])
          {
            if IsSurrogate(text[i]) {
              return Some(InvalidUnicode(at));
            }
          }
        case Obj(keys, items) =>
          var pending := MemberJobs(keys, items, at);
          PushMembers(stack, keys, items, at);
          stack := stack + Reverse(pending);
        case _ =>
          return Some(ValueDomain(if at == [] then Ascii("root") else at));
    }
    return None;
  }

  method MemberJobs(keys: seq<Text>, items: seq<Value>, path: Text) returns (pending: seq<Job>)
    requires |keys| == |items|
    ensures pending == Members(keys, items, path)
  {
    pending := [];
    for i := 0 to |items|
      invariant pending + Members(keys[i..], items[i..], path) == Members(keys, items, path)
    {
      assert keys[i..][1..] == keys[i + 1..] && items[i..][1..] == items[i + 1..];
      pending := pending + [CheckKey(keys[i], path), CheckValue(items[i], path + keys[i] + Ascii("."))];
    }
    assert items[|items|..] == [];
  }
}
