/** Where a payload path lands under the final directory (`ground_path` of reconcile.rs). */
module GroundPaths {
  import opened Bytes

  type Path = seq<bytes>

  const SLASH: byte := 0x2F
  const DOT: byte := 0x2E

  /** The parts between slashes, empty ones included. */
  function Split(name: bytes): (parts: seq<bytes>)
    ensures parts != []
    ensures forall k :: 0 <= k < |parts| ==> SLASH !in parts[k]
  {
    if name == [] then [[]]
    else
      var rest := Split(name[1..]);
      if name[0] == SLASH then [[]] + rest else [[name[0]] + rest[0]] + rest[1..]
  }

  /** A `Component::Normal`: neither empty, nor `.`, nor `..`. */
  predicate Normal(part: bytes) {
    part != [] && part != [DOT] && part != [DOT, DOT]
  }

  function Kept(parts: seq<bytes>): (out: Path)
    ensures forall k :: 0 <= k < |out| ==> Normal(out[k]) && out[k] in parts
  {
    if parts == [] then []
    else (if Normal(parts[0]) then [parts[0]] else []) + Kept(parts[1..])
  }

  function GroundPath(name: bytes): Path {
    Kept(Split(name))
  }

  lemma KeptNone(parts: seq<bytes>)
    ensures Kept(parts[|parts|..]) == []
  {
  }

  lemma KeptStep(out: Path, parts: seq<bytes>, k: nat)
    requires k < |parts|
    ensures out + Kept(parts[k..])
         == (if Normal(parts[k]) then out + [parts[k]] else out) + Kept(parts[k + 1..])
  {
    assert parts[k..][1..] == parts[k + 1..];
  }

  method ComputeGroundPath(name: bytes) returns (out: Path)
    ensures out == GroundPath(name)
  {
    hide Kept, Split;
    out := [];
    var parts := Split(name);
    for k := 0 to |parts|
      invariant out + Kept(parts[k..]) == Kept(parts)
    {
      KeptStep(out, parts, k);
      if Normal(parts[k]) {
        out := out + [parts[k]];
      }
    }
    KeptNone(parts);
  }

  /** How a file system walks a relative path. */
  function Walk(dir: Path, parts: seq<bytes>): Path
    decreases |parts|
  {
    if parts == [] then dir
    else if parts[0] == [DOT, DOT] then Walk(if dir == [] then [] else dir[..|dir| - 1], parts[1..])
    else if parts[0] == [] || parts[0] == [DOT] then Walk(dir, parts[1..])
    else Walk(dir + [parts[0]], parts[1..])
  }

  lemma {:induction false} NormalWalk(dir: Path, parts: seq<bytes>)
    requires forall k :: 0 <= k < |parts| ==> Normal(parts[k])
    ensures Walk(dir, parts) == dir + parts
    decreases |parts|
  {
    if parts != [] {
      NormalWalk(dir + [parts[0]], parts[1..]);
      assert dir + [parts[0]] + parts[1..] == dir + parts;
    }
  }

  /** Whatever the name, the landing place lies under the final directory. */
  lemma CannotEscape(finals: Path, name: bytes)
    ensures finals <= Walk(finals, GroundPath(name))
    ensures forall k :: 0 <= k < |GroundPath(name)| ==> SLASH !in GroundPath(name)[k]
  {
    NormalWalk(finals, GroundPath(name));
  }

  // ---- the path is mirrored ----

  /** The parts with a slash between each two. */
  function Slashed(parts: seq<bytes>): bytes
    requires parts != []
  {
    if |parts| == 1 then parts[0] else parts[0] + [SLASH] + Slashed(parts[1..])
  }

  ghost predicate NoSlash(parts: seq<bytes>) {
    forall k :: 0 <= k < |parts| ==> SLASH !in parts[k]
  }

  /** Splitting takes nothing away but the slashes. */
  lemma {:induction false} SplitJoins(name: bytes)
    ensures Slashed(Split(name)) == name
  {
    if name != [] {
      SplitJoins(name[1..]);
      var rest := Split(name[1..]);
      if name[0] == SLASH {
        assert Split(name)[1..] == rest;
      } else {
        var first := [name[0]] + rest[0];
        assert Split(name) == [first] + rest[1..];
        assert Slashed(Split(name)) == [name[0]] + Slashed(rest);
      }
      assert name == [name[0]] + name[1..];
    }
  }

  lemma {:induction false} SplitPart(part: bytes, rest: bytes)
    requires SLASH !in part
    ensures Split(part) == [part] && Split(part + [SLASH] + rest) == [part] + Split(rest)
    decreases |part|
  {
    var name := part + [SLASH] + rest;
    if part == [] {
      assert name[1..] == rest;
    } else {
      SplitPart(part[1..], rest);
      assert name[1..] == part[1..] + [SLASH] + rest;
      assert part == [part[0]] + part[1..];
    }
  }

  /** Parts without slashes are found again. */
  lemma {:induction false} SplitSlashed(parts: seq<bytes>)
    requires parts != [] && NoSlash(parts)
    ensures Split(Slashed(parts)) == parts
  {
    if |parts| == 1 {
      SplitPart(parts[0], []);
    } else {
      SplitPart(parts[0], Slashed(parts[1..]));
      SplitSlashed(parts[1..]);
    }
  }

  lemma {:induction false} KeptConcat(a: seq<bytes>, b: seq<bytes>)
    ensures Kept(a + b) == Kept(a) + Kept(b)
  {
    if a == [] {
      assert a + b == b;
    } else {
      assert (a + b)[1..] == a[1..] + b;
      KeptConcat(a[1..], b);
    }
  }

  /** None of the parts is empty, `.` or `..`. */
  ghost predicate Ordinary(parts: seq<bytes>) {
    forall k :: 0 <= k < |parts| ==> parts[k] != [] && parts[k] != [0x2E] && parts[k] != [0x2E, 0x2E]
  }

  lemma {:induction false} AllKept(parts: seq<bytes>)
    requires Ordinary(parts)
    ensures Kept(parts) == parts
  {
    if parts != [] {
      AllKept(parts[1..]);
      assert parts == [parts[0]] + parts[1..];
    }
  }

  /** A path of ordinary parts, absolute or not, lands at those parts. */
  lemma Mirrored(parts: seq<bytes>)
    requires parts != [] && NoSlash(parts)
    requires Ordinary(parts)
    ensures GroundPath(Slashed(parts)) == parts && GroundPath([0x2F] + Slashed(parts)) == parts
  {
    hide Split, Slashed, Kept, NoSlash, Ordinary;
    SplitSlashed(parts);
    AllKept(parts);
    RootDropped(Slashed(parts));
  }

  lemma RootDropped(name: bytes)
    ensures GroundPath([0x2F] + name) == GroundPath(name)
  {
    hide Kept;
    SplitPart([], name);
    assert [] + [SLASH] + name == [0x2F] + name;
    KeptConcat([[]], Split(name));
    DotsOnly([]);
    assert [] + GroundPath(name) == GroundPath(name);
  }

  /** An empty part, `.` or `..` anywhere in a path makes no difference to where it lands. */
  lemma DotsDropped(before: seq<bytes>, part: bytes, after: seq<bytes>)
    requires NoSlash(before) && NoSlash(after) && before + after != []
    requires part == [] || part == [0x2E] || part == [0x2E, 0x2E]
    ensures GroundPath(Slashed(before + [part] + after)) == GroundPath(Slashed(before + after))
  {
    hide Split, Slashed, Kept, Normal;
    var all := before + [part] + after;
    assert NoSlash(all) && NoSlash(before + after);
    SplitSlashed(all);
    SplitSlashed(before + after);
    KeptConcat(before + [part], after);
    KeptConcat(before, [part]);
    KeptConcat(before, after);
    DotsOnly(part);
    assert Kept(before) + [] == Kept(before);
  }

  lemma DotsOnly(part: bytes)
    requires part == [] || part == [0x2E] || part == [0x2E, 0x2E]
    ensures Kept([part]) == []
  {
  }
}
