/** The duplicate-key check: a recursive descent over decoder tokens that accepts
    exactly one JSON value, nested at most 128 deep, without a repeated key in any
    object.  The decoder itself checks commas, colons, matching brackets and string
    keys, and stops its token stream at the first error or at the end of the text; `rename` is what is
    applied to the keys of the root object: case folding, or nothing. */
module UniqueJson {
  import opened Wrappers
  import opened CaseFolding

  const MAX_DEPTH: nat := 128

  datatype Token = Open(obj: bool) | Close(obj: bool) | Text(s: string) | Atom

  datatype Tree = Leaf | Word(s: string) | Arr(items: seq<Tree>) | Obj(members: seq<Member>)

  datatype Member = Member(key: string, value: Tree)

  type Rename = string -> string

  function Name(rename: Rename, depth: nat, key: string): string {
    if depth == 0 then rename(key) else key
  }

  // ----- what is accepted ----------------------------------------------------

  function Stream(t: Tree): (ts: seq<Token>)
    ensures ts != [] && !ts[0].Close?
    decreases t, 1
  {
    match t
    case Leaf => [Atom]
    case Word(s) => [Text(s)]
    case Arr(items) => [Open(false)] + ItemStream(items) + [Close(false)]
    case Obj(members) => [Open(true)] + MemberStream(members) + [Close(true)]
  }

  function ItemStream(items: seq<Tree>): seq<Token>
    decreases items, 0
  {
    if items == [] then [] else Stream(items[0]) + ItemStream(items[1..])
  }

  function MemberStream(members: seq<Member>): seq<Token>
    decreases members, 0
  {
    if members == [] then [] else [Text(members[0].key)] + Stream(members[0].value) + MemberStream(members[1..])
  }

  /** Every value at depth at most 128, and the names in each object pairwise different. */
  predicate Fine(rename: Rename, t: Tree, depth: nat)
    decreases t, 1
  {
    depth <= MAX_DEPTH &&
    match t
    case Arr(items) => FineItems(rename, items, depth + 1)
    case Obj(members) => Distinct(rename, members, depth) && FineMembers(rename, members, depth + 1)
    case _ => true
  }

  predicate FineItems(rename: Rename, items: seq<Tree>, depth: nat)
    decreases items, 0
  {
    items == [] || (Fine(rename, items[0], depth) && FineItems(rename, items[1..], depth))
  }

  predicate FineMembers(rename: Rename, members: seq<Member>, depth: nat)
    decreases members, 0
  {
    members == [] || (Fine(rename, members[0].value, depth) && FineMembers(rename, members[1..], depth))
  }

  predicate Distinct(rename: Rename, members: seq<Member>, depth: nat) {
    forall i, j :: 0 <= i < j < |members| ==> Name(rename, depth, members[i].key) != Name(rename, depth, members[j].key)
  }

  /** No name of the members has been seen before. */
  predicate Unseen(rename: Rename, members: seq<Member>, depth: nat, seen: set<string>) {
    forall i :: 0 <= i < |members| ==> Name(rename, depth, members[i].key) !in seen
  }

  // ----- the check, as a function --------------------------------------------

  /** dec.More: something other than a closing bracket comes next. */
  predicate More(ts: seq<Token>, pos: nat) {
    pos < |ts| && !ts[pos].Close?
  }

  /** Where the value that starts at `pos` ends, or None when it is refused. */
  function Value(rename: Rename, ts: seq<Token>, pos: nat, depth: nat): (r: Option<nat>)
    ensures r.Some? ==> pos < r.value <= |ts|
    decreases |ts| - pos, 1
  {
    if depth > MAX_DEPTH || pos >= |ts| then None
    else
      match ts[pos]
      case Open(obj) => if obj then Members(rename, ts, pos + 1, depth, {}) else Items(rename, ts, pos + 1, depth)
      case Close(_) => None
      case _ => Some(pos + 1)
  }

  function Items(rename: Rename, ts: seq<Token>, pos: nat, depth: nat): (r: Option<nat>)
    ensures r.Some? ==> pos < r.value <= |ts|
    decreases |ts| - pos, 2
  {
    if More(ts, pos) then
      match Value(rename, ts, pos, depth + 1)
      case None => None
      case Some(q) => Items(rename, ts, q, depth)
    else if pos < |ts| && ts[pos] == Close(false) then Some(pos + 1) else None
  }

  function Members(rename: Rename, ts: seq<Token>, pos: nat, depth: nat, seen: set<string>): (r: Option<nat>)
    ensures r.Some? ==> pos < r.value <= |ts|
    decreases |ts| - pos, 2
  {
    if More(ts, pos) then
      if !ts[pos].Text? then None
      else
        var name := Name(rename, depth, ts[pos].s);
        if name in seen then None
        else
          match Value(rename, ts, pos + 1, depth + 1)
          case None => None
          case Some(q) => Members(rename, ts, q, depth, seen + {name})
    else if pos < |ts| && ts[pos] == Close(true) then Some(pos + 1) else None
  }

  predicate Check(rename: Rename, ts: seq<Token>) {
    Value(rename, ts, 0, 0) == Some(|ts|)
  }

  // ----- the check, in place -------------------------------------------------

  /** The renaming of root keys: folded when asked, untouched otherwise. */
  ghost function Renaming(next: Fold, foldRoot: bool): Rename {
    if foldRoot && Cyclic(next) then (name: string) => FoldedName(next, name) else (name: string) => name
  }

  /** The name a key is remembered under. */
  method KeyName(next: Fold, foldRoot: bool, depth: nat, key: string) returns (name: string)
    requires Cyclic(next)
    ensures name == Name(Renaming(next, foldRoot), depth, key)
  {
    name := key;
    if depth == 0 && foldRoot {
      name := FoldJSONField(next, key);
    }
  }

  class Decoder {
    const ts: seq<Token>
    const next: Fold
    const foldRoot: bool
    const eof: bool
    var pos: nat

    constructor (ts: seq<Token>, eof: bool, next: Fold, foldRoot: bool)
      ensures this.ts == ts && this.eof == eof && this.next == next && this.foldRoot == foldRoot && pos == 0
    {
      this.ts, this.eof, this.next, this.foldRoot := ts, eof, next, foldRoot;
      pos := 0;
    }

    /** value: reads one value; the position is meaningful only on success. */
    method ReadValue(depth: nat) returns (ok: bool)
      requires pos <= |ts| && Cyclic(next)
      modifies this
      ensures pos <= |ts| && ok == Value(Renaming(next, foldRoot), ts, old(pos), depth).Some?
      ensures ok ==> Some(pos) == Value(Renaming(next, foldRoot), ts, old(pos), depth)
      decreases |ts| - pos, 1
    {
      if depth > MAX_DEPTH || pos >= |ts| {
        return false;
      }
      var token := ts[pos];
      if token.Close? {
        return false;
      }
      pos := pos + 1;
      if !token.Open? {
        return true;
      }
      if token.obj {
        ok := ReadMembers(depth);
      } else {
        ok := ReadItems(depth);
      }
    }

    method ReadItems(depth: nat) returns (ok: bool)
      requires pos <= |ts| && Cyclic(next)
      modifies this
      ensures pos <= |ts| && ok == Items(Renaming(next, foldRoot), ts, old(pos), depth).Some?
      ensures ok ==> Some(pos) == Items(Renaming(next, foldRoot), ts, old(pos), depth)
      decreases |ts| - pos, 2
    {
      while More(ts, pos)
        invariant old(pos) <= pos <= |ts|
                  && Items(Renaming(next, foldRoot), ts, pos, depth) ==
                     Items(Renaming(next, foldRoot), ts, old(pos), depth)
        decreases |ts| - pos
      {
        ok := ReadValue(depth + 1);
        if !ok {
          return;
        }
      }
      ok := pos < |ts| && ts[pos] == Close(false);
      if ok { pos := pos + 1; }
    }

    method ReadMembers(depth: nat) returns (ok: bool)
      requires pos <= |ts| && Cyclic(next)
      modifies this
      ensures pos <= |ts| && ok == Members(Renaming(next, foldRoot), ts, old(pos), depth, {}).Some?
      ensures ok ==> Some(pos) == Members(Renaming(next, foldRoot), ts, old(pos), depth, {})
      decreases |ts| - pos, 2
    {
      var seen: set<string> := {};
      while More(ts, pos)
        invariant old(pos) <= pos <= |ts|
                  && Members(Renaming(next, foldRoot), ts, pos, depth, seen) ==
                     Members(Renaming(next, foldRoot), ts, old(pos), depth, {})
        decreases |ts| - pos
      {
        if !ts[pos].Text? {
          return false;
        }
        var name := KeyName(next, foldRoot, depth, ts[pos].s);
        if name in seen {
          return false;
        }
        seen := seen + {name};
        pos := pos + 1;
        ok := ReadValue(depth + 1);
        if !ok {
          return;
        }
      }
      ok := pos < |ts| && ts[pos] == Close(true);
      if ok { pos := pos + 1; }
    }
  }

  // ----- accepted means fine -------------------------------------------------

  lemma {:induction false} ValueSound(rename: Rename, ts: seq<Token>, pos: nat, depth: nat) returns (t: Tree)
    requires Value(rename, ts, pos, depth).Some?
    ensures ts[pos..Value(rename, ts, pos, depth).value] == Stream(t) && Fine(rename, t, depth)
    decreases |ts| - pos, 1
  {
    match ts[pos] {
      case Atom => t := Leaf;
      case Text(s) => t := Word(s);
      case Open(obj) =>
        if obj {
          var members := MembersSound(rename, ts, pos + 1, depth, {});
          t := Obj(members);
        } else {
          var items := ItemsSound(rename, ts, pos + 1, depth);
          t := Arr(items);
        }
    }
  }

  lemma {:induction false} ItemsSound(rename: Rename, ts: seq<Token>, pos: nat, depth: nat) returns (items: seq<Tree>)
    requires Items(rename, ts, pos, depth).Some?
    ensures ts[pos..Items(rename, ts, pos, depth).value] == ItemStream(items) + [Close(false)]
            && FineItems(rename, items, depth + 1)
    decreases |ts| - pos, 2
  {
    if More(ts, pos) {
      var q := Value(rename, ts, pos, depth + 1).value;
      var end := Items(rename, ts, pos, depth).value;
      var first := ValueSound(rename, ts, pos, depth + 1);
      var rest := ItemsSound(rename, ts, q, depth);
      items := [first] + rest;
      assert items[1..] == rest;
      assert ts[pos..end] == ts[pos..q] + ts[q..end];
      assert ItemStream(items) + [Close(false)] == Stream(first) + (ItemStream(rest) + [Close(false)]);
    } else {
      items := [];
    }
  }

  lemma JoinPieces(ts: seq<Token>, pos: nat, q: nat, end: nat, m: Member, rest: seq<Member>)
    requires pos < q <= end <= |ts| && ts[pos] == Text(m.key)
    requires ts[pos + 1..q] == Stream(m.value) && ts[q..end] == MemberStream(rest) + [Close(true)]
    ensures ts[pos..end] == MemberStream([m] + rest) + [Close(true)]
  {
    assert ([m] + rest)[1..] == rest;
    assert ts[pos..end] == [ts[pos]] + ts[pos + 1..q] + ts[q..end];
    assert MemberStream([m] + rest) + [Close(true)] ==
        [Text(m.key)] + Stream(m.value) + (MemberStream(rest) + [Close(true)]);
  }

  lemma {:induction false} MembersSound(rename: Rename, ts: seq<Token>, pos: nat, depth: nat, seen: set<string>)
    returns (members: seq<Member>)
    requires Members(rename, ts, pos, depth, seen).Some?
    ensures ts[pos..Members(rename, ts, pos, depth, seen).value] == MemberStream(members) + [Close(true)]
    ensures FineMembers(rename, members, depth + 1) && Distinct(rename, members, depth)
            && Unseen(rename, members, depth, seen)
    decreases |ts| - pos, 2
  {
    if More(ts, pos) {
      var key := ts[pos].s;
      var q := Value(rename, ts, pos + 1, depth + 1).value;
      var end := Members(rename, ts, pos, depth, seen).value;
      var value := ValueSound(rename, ts, pos + 1, depth + 1);
      var rest := MembersSound(rename, ts, q, depth, seen + {Name(rename, depth, key)});
      members := [Member(key, value)] + rest;
      assert members[1..] == rest;
      JoinPieces(ts, pos, q, end, Member(key, value), rest);
    } else {
      members := [];
    }
  }

  // ----- fine means accepted -------------------------------------------------

  predicate At(ts: seq<Token>, pos: nat, s: seq<Token>) {
    pos + |s| <= |ts| && ts[pos..pos + |s|] == s
  }

  lemma AtSplit(ts: seq<Token>, pos: nat, x: seq<Token>, y: seq<Token>)
    requires At(ts, pos, x + y)
    ensures At(ts, pos, x) && At(ts, pos + |x|, y)
  {
    var s := x + y;
    assert ts[pos..pos + |x|] == s[..|x|];
    assert ts[pos + |x|..pos + |s|] == s[|x|..];
  }

  lemma AtFirst(ts: seq<Token>, pos: nat, s: seq<Token>)
    requires At(ts, pos, s) && s != []
    ensures ts[pos] == s[0]
  {
    assert ts[pos..pos + |s|][0] == ts[pos];
  }

  lemma {:induction false} ValueComplete(rename: Rename, ts: seq<Token>, pos: nat, depth: nat, t: Tree)
    requires At(ts, pos, Stream(t)) && Fine(rename, t, depth)
    ensures Value(rename, ts, pos, depth) == Some(pos + |Stream(t)|)
    decreases t, 1
  {
    match t {
      case Arr(items) =>
        Bracketed(ts, pos, Open(false), ItemStream(items), Close(false));
        ItemsComplete(rename, ts, pos + 1, depth, items);
      case Obj(members) =>
        Bracketed(ts, pos, Open(true), MemberStream(members), Close(true));
        MembersComplete(rename, ts, pos + 1, depth, {}, members);
      case _ =>
        AtFirst(ts, pos, Stream(t));
    }
  }

  lemma Bracketed(ts: seq<Token>, pos: nat, open: Token, body: seq<Token>, close: Token)
    requires At(ts, pos, [open] + body + [close])
    ensures pos < |ts| && ts[pos] == open && At(ts, pos + 1, body + [close])
  {
    assert [open] + body + [close] == [open] + (body + [close]);
    AtSplit(ts, pos, [open], body + [close]);
    AtFirst(ts, pos, [open]);
  }

  /** Where an array's first item and the rest lie. */
  lemma {:induction false} ItemPieces(ts: seq<Token>, pos: nat, items: seq<Tree>, q: nat)
    requires items != [] && At(ts, pos, ItemStream(items) + [Close(false)]) && q == pos + |Stream(items[0])|
    ensures More(ts, pos) && |ItemStream(items)| == q - pos + |ItemStream(items[1..])|
    ensures At(ts, pos, Stream(items[0])) && At(ts, q, ItemStream(items[1..]) + [Close(false)])
  {
    var first, rest := Stream(items[0]), ItemStream(items[1..]);
    Assoc(first, rest, [Close(false)]);
    AtSplit(ts, pos, first, rest + [Close(false)]);
    AtFirst(ts, pos, first);
  }

  lemma Assoc(a: seq<Token>, b: seq<Token>, c: seq<Token>)
    ensures a + b + c == a + (b + c)
  {
  }

  lemma {:induction false} ItemsComplete(rename: Rename, ts: seq<Token>, pos: nat, depth: nat, items: seq<Tree>)
    requires At(ts, pos, ItemStream(items) + [Close(false)]) && FineItems(rename, items, depth + 1)
    ensures Items(rename, ts, pos, depth) == Some(pos + |ItemStream(items)| + 1)
    decreases items, 0
  {
    if items == [] {
      AtFirst(ts, pos, ItemStream(items) + [Close(false)]);
    } else {
      var q := pos + |Stream(items[0])|;
      ItemPieces(ts, pos, items, q);
      ValueComplete(rename, ts, pos, depth + 1, items[0]);
      ItemsComplete(rename, ts, q, depth, items[1..]);
    }
  }

  lemma RestUnseen(rename: Rename, members: seq<Member>, depth: nat, seen: set<string>)
    requires members != [] && Distinct(rename, members, depth) && Unseen(rename, members, depth, seen)
    ensures Name(rename, depth, members[0].key) !in seen
    ensures Distinct(rename, members[1..], depth)
            && Unseen(rename, members[1..], depth, seen + {Name(rename, depth, members[0].key)})
  {
  }

  lemma Regroup(a: seq<Token>, b: seq<Token>, c: seq<Token>, d: seq<Token>)
    ensures a + b + c + d == a + (b + (c + d))
  {
  }

  /** Where the pieces of an object's first member and of the rest lie. */
  lemma {:induction false} MemberPieces(ts: seq<Token>, pos: nat, members: seq<Member>, q: nat)
    requires members != [] && At(ts, pos, MemberStream(members) + [Close(true)])
             && q == pos + 1 + |Stream(members[0].value)|
    ensures pos < |ts| && ts[pos] == Text(members[0].key)
    ensures |MemberStream(members)| == q - pos + |MemberStream(members[1..])|
    ensures At(ts, pos + 1, Stream(members[0].value)) && At(ts, q, MemberStream(members[1..]) + [Close(true)])
  {
    var m := members[0];
    var value, rest := Stream(m.value), MemberStream(members[1..]) + [Close(true)];
    Regroup([Text(m.key)], value, MemberStream(members[1..]), [Close(true)]);
    AtSplit(ts, pos, [Text(m.key)], value + rest);
    AtSplit(ts, pos + 1, value, rest);
    AtFirst(ts, pos, [Text(m.key)]);
  }

  lemma {:induction false} MembersComplete(rename: Rename, ts: seq<Token>, pos: nat, depth: nat, seen: set<string>,
                                           members: seq<Member>)
    requires At(ts, pos, MemberStream(members) + [Close(true)])
    requires FineMembers(rename, members, depth + 1) && Distinct(rename, members, depth)
             && Unseen(rename, members, depth, seen)
    ensures Members(rename, ts, pos, depth, seen) == Some(pos + |MemberStream(members)| + 1)
    decreases members, 0
  {
    if members == [] {
      AtFirst(ts, pos, MemberStream(members) + [Close(true)]);
    } else {
      var m := members[0];
      var q := pos + 1 + |Stream(m.value)|;
      MemberPieces(ts, pos, members, q);
      ValueComplete(rename, ts, pos + 1, depth + 1, m.value);
      RestUnseen(rename, members, depth, seen);
      MembersComplete(rename, ts, q, depth, seen + {Name(rename, depth, m.key)}, members[1..]);
    }
  }

  // ----- root keys up to case ------------------------------------------------

  /** A value inside another: at most 128 deep, and no object in it repeats a key, character by character. */
  predicate Nested(t: Tree, depth: nat)
    decreases t
  {
    depth <= 128 &&
    match t
    case Arr(items) => forall i :: 0 <= i < |items| ==> Nested(items[i], depth + 1)
    case Obj(members) =>
      && (forall i, j :: 0 <= i < j < |members| ==> members[i].key != members[j].key)
      && forall i :: 0 <= i < |members| ==> Nested(members[i].value, depth + 1)
    case _ => true
  }

  /** Below the root the renaming plays no part: the check is that of a nested value. */
  lemma {:induction false} DeepFine(f: Rename, t: Tree, depth: nat)
    requires depth > 0
    ensures Fine(f, t, depth) <==> Nested(t, depth)
    decreases t, 1
  {
    match t {
      case Arr(items) => DeepFineItems(f, items, depth + 1);
      case Obj(members) => DeepFineMembers(f, members, depth + 1);
      case _ =>
    }
  }

  lemma {:induction false} DeepFineItems(f: Rename, items: seq<Tree>, depth: nat)
    requires depth > 0
    ensures FineItems(f, items, depth) <==> forall i :: 0 <= i < |items| ==> Nested(items[i], depth)
    decreases items, 0
  {
    if items != [] {
      DeepFine(f, items[0], depth);
      DeepFineItems(f, items[1..], depth);
      assert forall i :: 0 < i < |items| ==> items[i] == items[1..][i - 1];
    }
  }

  lemma {:induction false} DeepFineMembers(f: Rename, members: seq<Member>, depth: nat)
    requires depth > 0
    ensures FineMembers(f, members, depth) <==> forall i :: 0 <= i < |members| ==> Nested(members[i].value, depth)
    decreases members, 0
  {
    if members != [] {
      DeepFine(f, members[0].value, depth);
      DeepFineMembers(f, members[1..], depth);
      assert forall i :: 0 < i < |members| ==> members[i] == members[1..][i - 1];
    }
  }

  /** One document: root keys different after renaming, every other key as it is. */
  ghost predicate UniqueUnder(rename: Rename, t: Tree) {
    match t
    case Arr(items) => forall i :: 0 <= i < |items| ==> Nested(items[i], 1)
    case Obj(members) =>
      && (forall i, j :: 0 <= i < j < |members| ==> rename(members[i].key) != rename(members[j].key))
      && forall i :: 0 <= i < |members| ==> Nested(members[i].value, 1)
    case _ => true
  }

  lemma FineIsUnique(rename: Rename, t: Tree)
    ensures Fine(rename, t, 0) <==> UniqueUnder(rename, t)
  {
    match t {
      case Arr(items) => DeepFineItems(rename, items, 1);
      case Obj(members) => DeepFineMembers(rename, members, 1);
      case _ =>
    }
  }

  /** Accepted exactly when the stream is one value, nested at most 128 deep, with no repeated key. */
  lemma CheckIsExact(rename: Rename, ts: seq<Token>)
    ensures Check(rename, ts) <==> exists t :: Stream(t) == ts && UniqueUnder(rename, t)
  {
    if Check(rename, ts) {
      var t := ValueSound(rename, ts, 0, 0);
      assert ts[0..|ts|] == ts;
      FineIsUnique(rename, t);
    }
    forall t | Stream(t) == ts && UniqueUnder(rename, t) ensures Check(rename, ts) {
      assert ts[0..|ts|] == ts;
      FineIsUnique(rename, t);
      ValueComplete(rename, ts, 0, 0, t);
    }
  }

  /** No two keys are equal: up to case-folding orbits when asked, character by character otherwise. */
  ghost predicate KeysDiffer(next: Fold, foldRoot: bool, members: seq<Member>) {
    forall i, j :: 0 <= i < j < |members| ==>
      if foldRoot then !SameName(next, members[i].key, members[j].key) else members[i].key != members[j].key
  }

  /** What a request body may be: root keys different in the sense asked for, every other key exactly. */
  ghost predicate Unique(next: Fold, foldRoot: bool, t: Tree) {
    match t
    case Arr(items) => forall i :: 0 <= i < |items| ==> Nested(items[i], 1)
    case Obj(members) =>
      KeysDiffer(next, foldRoot, members) && forall i :: 0 <= i < |members| ==> Nested(members[i].value, 1)
    case _ => true
  }

  lemma RootKeys(next: Fold, foldRoot: bool, members: seq<Member>)
    requires Cyclic(next)
    ensures (forall i, j :: 0 <= i < j < |members| ==>
              Renaming(next, foldRoot)(members[i].key) != Renaming(next, foldRoot)(members[j].key)) <==>
            KeysDiffer(next, foldRoot, members)
  {
    if foldRoot {
      forall i, j | 0 <= i < j < |members|
        ensures Renaming(next, true)(members[i].key) != Renaming(next, true)(members[j].key)
                <==> !SameName(next, members[i].key, members[j].key)
      {
        FoldedNamesEqual(next, members[i].key, members[j].key);
      }
    }
  }

  lemma FoldedIsUnique(next: Fold, foldRoot: bool, t: Tree)
    requires Cyclic(next)
    ensures UniqueUnder(Renaming(next, foldRoot), t) <==> Unique(next, foldRoot, t)
  {
    if t.Obj? { RootKeys(next, foldRoot, t.members); }
  }

  /** The whole check: accepted exactly when the stream is one value, at most 128 deep, in which no nested object
      repeats a key and the root object repeats none either, up to case-folding orbits when asked. */
  lemma CheckFoldsRoot(next: Fold, foldRoot: bool, ts: seq<Token>)
    requires Cyclic(next)
    ensures Check(Renaming(next, foldRoot), ts) <==> exists t :: Stream(t) == ts && Unique(next, foldRoot, t)
  {
    CheckIsExact(Renaming(next, foldRoot), ts);
    forall t ensures UniqueUnder(Renaming(next, foldRoot), t) <==> Unique(next, foldRoot, t) {
      FoldedIsUnique(next, foldRoot, t);
    }
  }

  /** The whole check on what the decoder delivers: its tokens, and whether they end at the end of the text (`eof`) or
      at a decoder error. */
  method ValidateUniqueJSON(next: Fold, foldRoot: bool, ts: seq<Token>, eof: bool) returns (ok: bool)
    requires Cyclic(next)
    ensures ok <==> eof && exists t :: Stream(t) == ts && Unique(next, foldRoot, t)
  {
    var dec := new Decoder(ts, eof, next, foldRoot);
    ok := dec.ReadValue(0);
    if ok {
      ok := dec.pos == |ts| && dec.eof;
    }
    CheckFoldsRoot(next, foldRoot, ts);
  }
}
