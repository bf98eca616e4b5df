/**
 The two tree walkers that spend one shared node counter and stop early: `validate_json` in the
 codec and `validate_credential_free_profile` in the transport. Both are compared with the pure
 size and height of the value.
 */
module JsonBudget {
  import opened JsonText

  const MAX_JSON_NODES: nat := 4096
  const MAX_JSON_DEPTH: nat := 16
  const FORBIDDEN: set<string> := {
    "apikey", "accesstoken", "password", "privatekey", "secret", "helperpath", "executablepath", "token"
  }

  // ----- pure measures

  function Size(v: Json): (n: nat)
    ensures n > 0
    decreases v
  {
    match v
    case Array(items) => 1 + SizeOfItems(items)
    case Object(members) => 1 + SizeOfMembers(members)
    case _ => 1
  }

  function SizeOfItems(items: seq<Json>): nat
    decreases items
  {
    if items == [] then 0 else SizeOfItems(items[..|items| - 1]) + Size(items[|items| - 1])
  }

  function SizeOfMembers(members: seq<Member>): nat
    decreases members
  {
    if members == [] then 0 else SizeOfMembers(members[..|members| - 1]) + Size(members[|members| - 1].value)
  }

  /** The number of edges on the longest path to a leaf. */
  function Height(v: Json): nat
    decreases v
  {
    match v
    case Array(items) => HeightOfItems(items)
    case Object(members) => HeightOfMembers(members)
    case _ => 0
  }

  function HeightOfItems(items: seq<Json>): nat
    decreases items
  {
    if items == [] then 0 else Max(HeightOfItems(items[..|items| - 1]), 1 + Height(items[|items| - 1]))
  }

  function HeightOfMembers(members: seq<Member>): nat
    decreases members
  {
    if members == [] then 0
    else Max(HeightOfMembers(members[..|members| - 1]), 1 + Height(members[|members| - 1].value))
  }

  /** Key separators are dropped before the key is lowered. */
  function Squeeze(key: string): string {
    if key == "" then ""
    else if key[0] == '_' || key[0] == '-' then Squeeze(key[1..])
    else [key[0]] + Squeeze(key[1..])
  }

  /** Some object in v, at any depth, has a key whose normal form is forbidden. */
  predicate NamesSecret(v: Json, lower: string -> string)
    decreases v
  {
    match v
    case Array(items) => exists i :: 0 <= i < |items| && NamesSecret(items[i], lower)
    case Object(members) =>
      exists i :: 0 <= i < |members| && MemberNamesSecret(members[i], lower)
    case _ => false
  }

  predicate MemberNamesSecret(m: Member, lower: string -> string)
    decreases m
  {
    lower(Squeeze(m.key)) in FORBIDDEN || NamesSecret(m.value, lower)
  }

  predicate WithinBudget(v: Json) {
    Size(v) <= MAX_JSON_NODES && Height(v) <= MAX_JSON_DEPTH
  }

  lemma {:induction false} ItemPrefixIsSmaller(items: seq<Json>, i: nat)
    requires i <= |items|
    ensures SizeOfItems(items[..i]) <= SizeOfItems(items)
    ensures HeightOfItems(items[..i]) <= HeightOfItems(items)
    decreases |items| - i
  {
    if i < |items| {
      assert items[..i + 1][..i] == items[..i];
      ItemPrefixIsSmaller(items, i + 1);
    } else {
      assert items[..i] == items;
    }
  }

  lemma {:induction false} MemberPrefixIsSmaller(members: seq<Member>, i: nat)
    requires i <= |members|
    ensures SizeOfMembers(members[..i]) <= SizeOfMembers(members)
    ensures HeightOfMembers(members[..i]) <= HeightOfMembers(members)
    decreases |members| - i
  {
    if i < |members| {
      assert members[..i + 1][..i] == members[..i];
      MemberPrefixIsSmaller(members, i + 1);
    } else {
      assert members[..i] == members;
    }
  }

  lemma OneMoreItem(items: seq<Json>, i: nat)
    requires i < |items|
    ensures SizeOfItems(items[..i + 1]) == SizeOfItems(items[..i]) + Size(items[i]) <= SizeOfItems(items)
    ensures HeightOfItems(items[..i + 1])
            == Max(HeightOfItems(items[..i]), 1 + Height(items[i])) <= HeightOfItems(items)
  {
    assert items[..i + 1][..i] == items[..i];
    ItemPrefixIsSmaller(items, i + 1);
  }

  lemma OneMoreMember(members: seq<Member>, i: nat)
    requires i < |members|
    ensures SizeOfMembers(members[..i + 1])
            == SizeOfMembers(members[..i]) + Size(members[i].value) <= SizeOfMembers(members)
    ensures HeightOfMembers(members[..i + 1]) == Max(HeightOfMembers(members[..i]), 1 + Height(members[i].value))
         <= HeightOfMembers(members)
  {
    assert members[..i + 1][..i] == members[..i];
    MemberPrefixIsSmaller(members, i + 1);
  }

  // ----- the codec's walker

  method Walk(v: Json, depth: nat, before: nat) returns (ok: bool, nodes: nat)
    ensures ok <==> before + Size(v) <= MAX_JSON_NODES && depth + Height(v) <= MAX_JSON_DEPTH
    ensures ok ==> nodes == before + Size(v)
    decreases v
  {
    nodes := before + 1;
    if nodes > MAX_JSON_NODES || depth > MAX_JSON_DEPTH {
      return false, nodes;
    }
    match v {
      case Array(items) =>
        for i := 0 to |items|
          invariant nodes == before + 1 + SizeOfItems(items[..i]) <= MAX_JSON_NODES
          invariant depth + HeightOfItems(items[..i]) <= MAX_JSON_DEPTH
        {
          OneMoreItem(items, i);
          ok, nodes := Walk(items[i], depth + 1, nodes);
          if !ok {
            return;
          }
        }
        assert items[..|items|] == items;
      case Object(members) =>
        for i := 0 to |members|
          invariant nodes == before + 1 + SizeOfMembers(members[..i]) <= MAX_JSON_NODES
          invariant depth + HeightOfMembers(members[..i]) <= MAX_JSON_DEPTH
        {
          OneMoreMember(members, i);
          ok, nodes := Walk(members[i].value, depth + 1, nodes);
          if !ok {
            return;
          }
        }
        assert members[..|members|] == members;
      case _ =>
    }
    ok := true;
  }

  /** `validate_json`: the shared counter accepts exactly the values within both bounds. */
  method ValidateJson(v: Json) returns (ok: bool)
    ensures ok <==> WithinBudget(v)
  {
    var accepted, _ := Walk(v, 0, 0);
    return accepted;
  }

  // ----- the transport's walker

  method WalkProfile(v: Json, lower: string -> string, depth: nat, before: nat) returns (ok: bool, nodes: nat)
    ensures ok <==> before + Size(v) <= MAX_JSON_NODES && depth + Height(v) <= MAX_JSON_DEPTH && !NamesSecret(v, lower)
    ensures ok ==> nodes == before + Size(v)
    decreases v
  {
    nodes := before + 1;
    if nodes > MAX_JSON_NODES || depth > MAX_JSON_DEPTH {
      return false, nodes;
    }
    match v {
      case Object(members) => ok, nodes := WalkProfileMembers(members, lower, depth, nodes);
      case Array(items) => ok, nodes := WalkProfileItems(items, lower, depth, nodes);
      case _ => ok := true;
    }
  }

  method WalkProfileMembers(members: seq<Member>, lower: string -> string, depth: nat, before: nat)
      returns (ok: bool, nodes: nat)
    requires before <= MAX_JSON_NODES && depth <= MAX_JSON_DEPTH
    ensures ok <==> before + SizeOfMembers(members) <= MAX_JSON_NODES
                    && depth + HeightOfMembers(members) <= MAX_JSON_DEPTH
                    && forall i :: 0 <= i < |members| ==> !MemberNamesSecret(members[i], lower)
    ensures ok ==> nodes == before + SizeOfMembers(members)
    decreases members
  {
    nodes := before;
    for i := 0 to |members|
      invariant nodes == before + SizeOfMembers(members[..i]) <= MAX_JSON_NODES
      invariant depth + HeightOfMembers(members[..i]) <= MAX_JSON_DEPTH
      invariant forall j :: 0 <= j < i ==> !MemberNamesSecret(members[j], lower)
    {
      if lower(Squeeze(members[i].key)) in FORBIDDEN {
        return false, nodes;
      }
      OneMoreMember(members, i);
      ok, nodes := WalkProfile(members[i].value, lower, depth + 1, nodes);
      if !ok {
        return;
      }
    }
    assert members[..|members|] == members;
    ok := true;
  }

  method WalkProfileItems(items: seq<Json>, lower: string -> string, depth: nat, before: nat)
      returns (ok: bool, nodes: nat)
    requires before <= MAX_JSON_NODES && depth <= MAX_JSON_DEPTH
    ensures ok <==> before + SizeOfItems(items) <= MAX_JSON_NODES
                    && depth + HeightOfItems(items) <= MAX_JSON_DEPTH
                    && forall i :: 0 <= i < |items| ==> !NamesSecret(items[i], lower)
    ensures ok ==> nodes == before + SizeOfItems(items)
    decreases items
  {
    nodes := before;
    for i := 0 to |items|
      invariant nodes == before + SizeOfItems(items[..i]) <= MAX_JSON_NODES
      invariant depth + HeightOfItems(items[..i]) <= MAX_JSON_DEPTH
      invariant forall j :: 0 <= j < i ==> !NamesSecret(items[j], lower)
    {
      OneMoreItem(items, i);
      ok, nodes := WalkProfile(items[i], lower, depth + 1, nodes);
      if !ok {
        return;
      }
    }
    assert items[..|items|] == items;
    ok := true;
  }

  datatype Refusal = ProfileBoundsOrKeys | CodecTooLarge

  /** A profile passes the transport's check first and the codec's check second; only the first can refuse it. */
  method SubmitProfile(v: Json, lower: string -> string) returns (refused: set<Refusal>)
    ensures refused == if WithinBudget(v) && !NamesSecret(v, lower) then {} else {ProfileBoundsOrKeys}
  {
    var ok, _ := WalkProfile(v, lower, 0, 0);
    if !ok {
      return {ProfileBoundsOrKeys};
    }
    ok := ValidateJson(v);
    return if ok then {} else {CodecTooLarge};
  }
}
