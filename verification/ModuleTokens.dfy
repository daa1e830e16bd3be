/** Finding the `data` key of a module file in a stream of JSON tokens. */
module ModuleTokens {
  import opened Wrappers

  datatype Token = OpenObject | CloseObject | OpenArray | CloseArray | Text(s: string) | Other

  // ----- the code -----

  const DATA := "data"

  /** The two variables of the scan. */
  datatype Scan = Scan(inObject: nat, expectingKey: bool)

  const START := Scan(0, false)

  predicate IsStop(st: Scan, token: Token) {
    token == Text(DATA) && st.inObject > 0 && st.expectingKey
  }

  function Move(st: Scan, token: Token): Scan {
    match token
    case OpenObject => Scan(st.inObject + 1, true)
    case CloseObject =>
      var depth := if st.inObject > 0 then st.inObject - 1 else 0;
      Scan(depth, depth > 0)
    case OpenArray => st.(expectingKey := false)
    case CloseArray => st.(expectingKey := st.inObject > 0)
    case Text(_) => if st.inObject > 0 then st.(expectingKey := !st.expectingKey) else st
    case Other => if st.inObject > 0 then st.(expectingKey := true) else st
  }

  function Run(st: Scan, tokens: seq<Token>): Scan
    decreases |tokens|
  {
    if tokens == [] then st else Run(Move(st, tokens[0]), tokens[1..])
  }

  /** The number of tokens read when the scan stops. */
  function FirstStop(st: Scan, tokens: seq<Token>): (r: Option<nat>)
    ensures r.Some? ==> r.value <= |tokens|
    decreases |tokens|
  {
    if tokens == [] then None
    else if IsStop(st, tokens[0]) then Some(1)
    else Shift(1, FirstStop(Move(st, tokens[0]), tokens[1..]))
  }

  function Shift(n: nat, r: Option<nat>): Option<nat> {
    if r.None? then None else Some(n + r.value)
  }

  method FindDataKey(tokens: seq<Token>) returns (r: Option<nat>)
    ensures r == FirstStop(START, tokens)
  {
    var inObject: nat, expectingKey := 0, false;
    var i := 0;
    while i < |tokens|
      invariant i <= |tokens|
      invariant FirstStop(START, tokens) == Shift(i, FirstStop(Scan(inObject, expectingKey), tokens[i..]))
    {
      assert tokens[i..][1..] == tokens[i + 1..];
      match tokens[i] {
        case OpenObject =>
          inObject := inObject + 1;
          expectingKey := true;
        case CloseObject =>
          if inObject > 0 {
            inObject := inObject - 1;
          }
          expectingKey := inObject > 0;
        case OpenArray =>
          expectingKey := false;
        case CloseArray =>
          expectingKey := inObject > 0;
        case Text(s) =>
          if inObject > 0 && expectingKey {
            if s == DATA {
              return Some(i + 1);
            }
            expectingKey := false;
          } else if inObject > 0 {
            expectingKey := true;
          }
        case Other =>
          if inObject > 0 && !expectingKey {
            expectingKey := true;
          }
      }
      i := i + 1;
    }
    r := None;
  }

  // ----- documents -----

  datatype Json = Str(s: string) | Atom | Arr(items: seq<Json>) | Obj(members: seq<Member>)

  datatype Member = Member(key: string, value: Json)

  function Tokens(v: Json): seq<Token>
    decreases v
  {
    match v
    case Str(s) => [Text(s)]
    case Atom => [Other]
    case Arr(items) => [OpenArray] + ItemTokens(items) + [CloseArray]
    case Obj(members) => [OpenObject] + MemberTokens(members) + [CloseObject]
  }

  function ItemTokens(items: seq<Json>): seq<Token>
    decreases items
  {
    if items == [] then [] else Tokens(items[0]) + ItemTokens(items[1..])
  }

  function MemberTokens(members: seq<Member>): seq<Token>
    decreases members
  {
    if members == [] then []
    else [Text(members[0].key)] + Tokens(members[0].value) + MemberTokens(members[1..])
  }

  /** The number of tokens up to and including the first key `data` in document order. */
  function FirstDataKey(v: Json): (r: Option<nat>)
    ensures r.Some? ==> 0 < r.value <= |Tokens(v)|
    decreases v
  {
    match v
    case Str(_) => None
    case Atom => None
    case Arr(items) => Shift(1, FirstInItems(items))
    case Obj(members) => Shift(1, FirstInMembers(members))
  }

  function Or(first: Option<nat>, skipped: nat, second: Option<nat>): Option<nat> {
    if first.Some? then first else Shift(skipped, second)
  }

  function FirstInItems(items: seq<Json>): (r: Option<nat>)
    ensures r.Some? ==> 0 < r.value <= |ItemTokens(items)|
    decreases items
  {
    if items == [] then None
    else Or(FirstDataKey(items[0]), |Tokens(items[0])|, FirstInItems(items[1..]))
  }

  function FirstInMembers(members: seq<Member>): (r: Option<nat>)
    ensures r.Some? ==> 0 < r.value <= |MemberTokens(members)|
    decreases members
  {
    if members == [] then None
    else if members[0].key == "data" then Some(1)
    else Shift(1, Or(FirstDataKey(members[0].value), |Tokens(members[0].value)|, FirstInMembers(members[1..])))
  }

  // ----- array elements in key position -----

  /** The length of the run of strings directly in front of element `k`. */
  function StringsBefore(items: seq<Json>, k: nat): (n: nat)
    requires k <= |items|
    ensures n <= k
  {
    if k > 0 && items[k - 1].Str? then 1 + StringsBefore(items, k - 1) else 0
  }

  /** Element `k` stands where the scan expects a key: behind an odd run of strings at the
      start of the array, or behind an even one, possibly empty, that follows another element. */
  predicate InKeyPlace(items: seq<Json>, k: nat)
    requires k <= |items|
  {
    var n := StringsBefore(items, k);
    if n == k then n % 2 == 1 else n % 2 == 0
  }

  /** An array element that is taken for the key. */
  predicate IsDecoy(items: seq<Json>, k: nat)
    requires k < |items|
  {
    items[k] == Str("data") && InKeyPlace(items, k)
  }

  /** The number of tokens up to and including the first decoy in document order. */
  function FirstDecoy(v: Json): (r: Option<nat>)
    ensures r.Some? ==> 0 < r.value <= |Tokens(v)|
    decreases v
  {
    match v
    case Str(_) => None
    case Atom => None
    case Arr(items) =>
      assert items[0..] == items;
      Shift(1, FirstDecoyFrom(items, 0))
    case Obj(members) => Shift(1, FirstDecoyIn(members))
  }

  function FirstDecoyFrom(items: seq<Json>, k: nat): (r: Option<nat>)
    requires k <= |items|
    ensures r.Some? ==> 0 < r.value <= |ItemTokens(items[k..])|
    decreases items, |items| - k
  {
    if k == |items| then None
    else
      assert items[k..][1..] == items[k + 1..];
      if IsDecoy(items, k) then Some(1)
      else Or(FirstDecoy(items[k]), |Tokens(items[k])|, FirstDecoyFrom(items, k + 1))
  }

  function FirstDecoyIn(members: seq<Member>): (r: Option<nat>)
    ensures r.Some? ==> 0 < r.value <= |MemberTokens(members)|
    decreases members
  {
    if members == [] then None
    else Shift(1, Or(FirstDecoy(members[0].value), |Tokens(members[0].value)|, FirstDecoyIn(members[1..])))
  }

  /** A decoy comes before every key `data`. */
  predicate DecoyFirst(doc: Json) {
    FirstDecoy(doc).Some? && (FirstDataKey(doc).None? || FirstDecoy(doc).value < FirstDataKey(doc).value)
  }

  // ----- proofs -----

  lemma {:induction false} RunConcat(st: Scan, a: seq<Token>, b: seq<Token>)
    ensures Run(st, a + b) == Run(Run(st, a), b)
    ensures FirstStop(st, a + b) == Or(FirstStop(st, a), |a|, FirstStop(Run(st, a), b))
    decreases |a|
  {
    if a == [] {
      assert a + b == b;
    } else {
      assert (a + b)[1..] == a[1..] + b;
      RunConcat(Move(st, a[0]), a[1..], b);
    }
  }

  lemma StepFirst(st: Scan, token: Token, rest: seq<Token>)
    ensures Run(st, [token] + rest) == Run(Move(st, token), rest)
    ensures FirstStop(st, [token] + rest) ==
            if IsStop(st, token) then Some(1) else Shift(1, FirstStop(Move(st, token), rest))
  {
    assert ([token] + rest)[1..] == rest;
  }

  function Earliest(a: Option<nat>, b: Option<nat>): Option<nat> {
    if a.None? then b else if b.None? || a.value <= b.value then a else b
  }

  /** What an element leaves of the expectation: a string flips it, any other element sets it. */
  function Flag(before: bool, v: Json): bool { if v.Str? then !before else true }

  /** The first decoy of a value read with this expectation. */
  function DecoyHere(v: Json, flag: bool): Option<nat> {
    if flag && v == Str(DATA) then Some(1) else FirstDecoy(v)
  }

  /** Inside an object, a value takes the scan back to its depth; the expectation it
      leaves depends on the value alone, unless the value is a string. */
  lemma {:induction false} ValueRun(st: Scan, v: Json)
    requires st.inObject > 0
    ensures Run(st, Tokens(v)) == st.(expectingKey := Flag(st.expectingKey, v))
    ensures FirstStop(st, Tokens(v)) == Earliest(DecoyHere(v, st.expectingKey), FirstDataKey(v))
    decreases v
  {
    match v
    case Str(s) =>
      StepFirst(st, Text(s), []);
      assert [Text(s)] + [] == [Text(s)];
    case Atom =>
      StepFirst(st, Other, []);
      assert [Other] + [] == [Other];
    case Arr(items) =>
      var inner := Scan(st.inObject, false);
      ItemsRun(inner, items, 0);
      assert items[0..] == items;
      StepFirst(st, OpenArray, ItemTokens(items) + [CloseArray]);
      RunConcat(inner, ItemTokens(items), [CloseArray]);
      StepFirst(Run(inner, ItemTokens(items)), CloseArray, []);
      assert [CloseArray] + [] == [CloseArray];
      assert Tokens(v) == [OpenArray] + (ItemTokens(items) + [CloseArray]);
    case Obj(members) =>
      ObjectRun(st, members);
  }

  lemma {:induction false} ObjectRun(st: Scan, members: seq<Member>)
    ensures Run(st, Tokens(Obj(members))) == Scan(st.inObject, st.inObject > 0)
    ensures FirstStop(st, Tokens(Obj(members))) == Earliest(FirstDecoy(Obj(members)), FirstDataKey(Obj(members)))
    decreases members
  {
    var inner := Scan(st.inObject + 1, true);
    MembersRun(inner, members);
    StepFirst(st, OpenObject, MemberTokens(members) + [CloseObject]);
    RunConcat(inner, MemberTokens(members), [CloseObject]);
    StepFirst(inner, CloseObject, []);
    assert [CloseObject] + [] == [CloseObject];
    assert Tokens(Obj(members)) == [OpenObject] + (MemberTokens(members) + [CloseObject]);
  }

  /** The elements from the `k`-th on, read where the scan expects a key exactly when the
      strings in front of them say so. */
  lemma {:induction false} ItemsRun(st: Scan, items: seq<Json>, k: nat)
    requires st.inObject > 0 && k <= |items| && st.expectingKey == InKeyPlace(items, k)
    ensures Run(st, ItemTokens(items[k..])).inObject == st.inObject
    ensures FirstStop(st, ItemTokens(items[k..])) == Earliest(FirstDecoyFrom(items, k), FirstInItems(items[k..]))
    decreases items, |items| - k
  {
    if k < |items| {
      hide Tokens, Run, FirstStop, FirstDecoy, FirstDataKey;
      var next, rest := st.(expectingKey := Flag(st.expectingKey, items[k])), items[k + 1..];
      assert items[k..][1..] == rest;
      ValueRun(st, items[k]);
      ItemsRun(next, items, k + 1);
      RunConcat(st, Tokens(items[k]), ItemTokens(rest));
      StringIsNoKey(items[k]);
      EarliestOr(DecoyHere(items[k], st.expectingKey), FirstDataKey(items[k]), |Tokens(items[k])|,
                 FirstDecoyFrom(items, k + 1), FirstInItems(rest));
    }
  }

  lemma StringIsNoKey(v: Json)
    ensures v.Str? ==> FirstDataKey(v) == None == FirstDecoy(v) && |Tokens(v)| == 1
  {
  }

  /** Two searches over the same two parts, the second part behind the first. */
  lemma EarliestOr(a1: Option<nat>, b1: Option<nat>, n: nat, a2: Option<nat>, b2: Option<nat>)
    requires (a1.Some? ==> a1.value <= n) && (b1.Some? ==> b1.value <= n)
    requires (a2.Some? ==> 0 < a2.value) && (b2.Some? ==> 0 < b2.value)
    ensures Earliest(Or(a1, n, a2), Or(b1, n, b2)) == Or(Earliest(a1, b1), n, Earliest(a2, b2))
  {
  }

  /** A key and its value, from a place where a key is expected. */
  lemma MemberRun(st: Scan, key: string, value: seq<Token>, rest: seq<Token>)
    requires st.inObject > 0 && st.expectingKey && Run(st.(expectingKey := false), value) == st
    ensures Run(st, [Text(key)] + value + rest) == Run(st, rest)
    ensures FirstStop(st, [Text(key)] + value + rest)
         == if key == DATA then Some(1)
            else Shift(1, Or(FirstStop(st.(expectingKey := false), value), |value|, FirstStop(st, rest)))
  {
    hide Run, FirstStop;
    RunConcat(st.(expectingKey := false), value, rest);
    StepFirst(st, Text(key), value + rest);
    assert [Text(key)] + value + rest == [Text(key)] + (value + rest);
  }

  lemma {:induction false} MembersRun(st: Scan, members: seq<Member>)
    requires st.inObject > 0 && st.expectingKey
    ensures Run(st, MemberTokens(members)) == st
    ensures FirstStop(st, MemberTokens(members)) == Earliest(FirstDecoyIn(members), FirstInMembers(members))
    decreases members, 0
  {
    if members != [] {
      hide Tokens, Run, FirstStop, FirstDecoy, FirstDataKey;
      var value := members[0].value;
      ValueRun(st.(expectingKey := false), value);
      MembersRun(st, members[1..]);
      MemberRun(st, members[0].key, Tokens(value), MemberTokens(members[1..]));
      EarliestOr(FirstDecoy(value), FirstDataKey(value), |Tokens(value)|, FirstDecoyIn(members[1..]),
                 FirstInMembers(members[1..]));
    }
  }

  /** Where the scan stops on every object document: at the first key `data` or the first
      decoy, whichever comes first. */
  lemma ScanExact(members: seq<Member>)
    ensures FirstStop(START, Tokens(Obj(members))) == Earliest(FirstDecoy(Obj(members)), FirstDataKey(Obj(members)))
  {
    ObjectRun(START, members);
  }

  /** The scan stops right behind the first key `data`, and reports "not found" when there
      is none, exactly when no decoy precedes it. */
  lemma FindsKeyExact(members: seq<Member>)
    ensures var doc := Obj(members);
            FirstStop(START, Tokens(doc)) == FirstDataKey(doc) <==> !DecoyFirst(doc)
  {
    ScanExact(members);
  }

  // ----- documents without decoys -----

  /** No array has a string `data` among its own elements. */
  predicate NoDataElement(v: Json)
    decreases v
  {
    match v
    case Str(_) => true
    case Atom => true
    case Arr(items) => forall item | item in items :: item != Str("data") && NoDataElement(item)
    case Obj(members) => forall m | m in members :: NoDataElement(m.value)
  }

  lemma {:induction false} NoDecoy(v: Json)
    requires NoDataElement(v)
    ensures FirstDecoy(v) == None
    decreases v
  {
    match v
    case Str(_) =>
    case Atom =>
    case Arr(items) => NoDecoyFrom(items, 0);
    case Obj(members) => NoDecoyIn(members);
  }

  lemma {:induction false} NoDecoyFrom(items: seq<Json>, k: nat)
    requires k <= |items| && forall item | item in items :: item != Str("data") && NoDataElement(item)
    ensures FirstDecoyFrom(items, k) == None
    decreases items, |items| - k
  {
    if k < |items| {
      assert items[k] in items;
      NoDecoy(items[k]);
      NoDecoyFrom(items, k + 1);
    }
  }

  lemma {:induction false} NoDecoyIn(members: seq<Member>)
    requires forall m | m in members :: NoDataElement(m.value)
    ensures FirstDecoyIn(members) == None
    decreases members, 0
  {
    if members != [] {
      assert members[0] in members;
      NoDecoy(members[0].value);
      NoDecoyIn(members[1..]);
    }
  }

  /** The shape of a bundle item: its arrays hold objects. */
  lemma FindsKeyWithoutDataElements(members: seq<Member>)
    requires NoDataElement(Obj(members))
    ensures FirstStop(START, Tokens(Obj(members))) == FirstDataKey(Obj(members))
  {
    NoDecoy(Obj(members));
    FindsKeyExact(members);
  }

  /** A concrete miss: in `{"a": [1, "data"], "data": "x"}` the array element is taken for
      the key. */
  lemma DecoyExample()
    ensures var doc := Obj([Member("a", Arr([Atom, Str("data")])), Member("data", Str("x"))]);
            FirstStop(START, Tokens(doc)) == Some(5) && FirstDataKey(doc) == Some(7) && DecoyFirst(doc)
  {
    var items, last := [Atom, Str(DATA)], [Member(DATA, Str("x"))];
    var members := [Member("a", Arr(items))] + last;
    assert items[1..] == [Str(DATA)] && [Str(DATA)][1..] == [] && members[1..] == last;
    assert |ItemTokens(items)| == |Tokens(Atom)| + |ItemTokens([Str(DATA)])| == 2;
    assert FirstInItems([Str(DATA)]) == None && FirstInItems(items) == None;
    assert FirstInMembers(last) == Some(1);
    assert |Tokens(Arr(items))| == 4 && FirstDataKey(Arr(items)) == None;
    assert FirstInMembers(members) == Shift(1, Or(None, 4, Some(1)));
    assert StringsBefore(items, 1) == 0 && IsDecoy(items, 1);
    assert FirstDecoyFrom(items, 1) == Some(1) && FirstDecoyFrom(items, 0) == Some(2);
    assert FirstDecoy(Arr(items)) == Some(3);
    assert FirstDecoyIn(members) == Some(4);
    assert [Member("a", Arr([Atom, Str(DATA)])), Member(DATA, Str("x"))] == members;
    ScanExact(members);
  }

  // ----- the flag at keys and values -----

  datatype Role = Key | StringValue | Mark

  function Roles(v: Json): (roles: seq<Role>)
    ensures |roles| == |Tokens(v)|
    decreases v
  {
    match v
    case Str(_) => [StringValue]
    case Atom => [Mark]
    case Arr(items) => [Mark] + ItemRoles(items) + [Mark]
    case Obj(members) => [Mark] + MemberRoles(members) + [Mark]
  }

  function ItemRoles(items: seq<Json>): (roles: seq<Role>)
    ensures |roles| == |ItemTokens(items)|
    decreases items
  {
    if items == [] then [] else Roles(items[0]) + ItemRoles(items[1..])
  }

  function MemberRoles(members: seq<Member>): (roles: seq<Role>)
    ensures |roles| == |MemberTokens(members)|
    decreases members
  {
    if members == [] then [] else [Key] + Roles(members[0].value) + MemberRoles(members[1..])
  }

  /** The expectation at every key and every string value, along a run from `st`. */
  predicate Tracked(st: Scan, tokens: seq<Token>, roles: seq<Role>)
    requires |tokens| == |roles|
    decreases |tokens|
  {
    tokens != [] ==>
      && (roles[0] == Key ==> st.expectingKey)
      && (roles[0] == StringValue ==> !st.expectingKey)
      && Tracked(Move(st, tokens[0]), tokens[1..], roles[1..])
  }

  predicate NoArrayStrings(v: Json)
    decreases v
  {
    match v
    case Str(_) => true
    case Atom => true
    case Arr(items) => forall item | item in items :: !item.Str? && NoArrayStrings(item)
    case Obj(members) => forall m | m in members :: NoArrayStrings(m.value)
  }

  lemma {:induction false} TrackedConcat(st: Scan, a: seq<Token>, ra: seq<Role>, b: seq<Token>, rb: seq<Role>)
    requires |a| == |ra| && |b| == |rb|
    requires Tracked(st, a, ra) && Tracked(Run(st, a), b, rb)
    ensures Tracked(st, a + b, ra + rb)
    decreases |a|
  {
    if a == [] {
      assert a + b == b && ra + rb == rb;
    } else {
      assert (a + b)[1..] == a[1..] + b && (ra + rb)[1..] == ra[1..] + rb;
      TrackedConcat(Move(st, a[0]), a[1..], ra[1..], b, rb);
    }
  }

  lemma TrackedOne(st: Scan, token: Token, role: Role)
    requires role == Key ==> st.expectingKey
    requires role == StringValue ==> !st.expectingKey
    ensures Tracked(st, [token], [role]) && Run(st, [token]) == Move(st, token)
  {
    assert [token][1..] == [] && [role][1..] == [];
  }

  lemma {:induction false} ValueTracked(st: Scan, v: Json)
    requires NoArrayStrings(v) && (v.Str? ==> !st.expectingKey)
    requires !v.Obj? ==> st.inObject > 0
    ensures Tracked(st, Tokens(v), Roles(v))
    decreases v
  {
    match v
    case Str(s) => TrackedOne(st, Text(s), StringValue);
    case Atom => TrackedOne(st, Other, Mark);
    case Arr(items) =>
      var inner := st.(expectingKey := false);
      TrackedOne(st, OpenArray, Mark);
      ItemsTracked(inner, items);
      TrackedConcat(st, [OpenArray], [Mark], ItemTokens(items), ItemRoles(items));
      RunConcat(st, [OpenArray], ItemTokens(items));
      var last := Run(st, [OpenArray] + ItemTokens(items));
      TrackedOne(last, CloseArray, Mark);
      TrackedConcat(st, [OpenArray] + ItemTokens(items), [Mark] + ItemRoles(items), [CloseArray], [Mark]);
    case Obj(members) =>
      var inner := Scan(st.inObject + 1, true);
      TrackedOne(st, OpenObject, Mark);
      MembersTracked(inner, members);
      TrackedConcat(st, [OpenObject], [Mark], MemberTokens(members), MemberRoles(members));
      RunConcat(st, [OpenObject], MemberTokens(members));
      var last := Run(st, [OpenObject] + MemberTokens(members));
      TrackedOne(last, CloseObject, Mark);
      TrackedConcat(st, [OpenObject] + MemberTokens(members), [Mark] + MemberRoles(members), [CloseObject], [Mark]);
  }

  lemma {:induction false} ItemsTracked(st: Scan, items: seq<Json>)
    requires st.inObject > 0 && forall item | item in items :: !item.Str? && NoArrayStrings(item)
    ensures Tracked(st, ItemTokens(items), ItemRoles(items))
    decreases items
  {
    if items != [] {
      assert items[0] in items;
      ValueTracked(st, items[0]);
      ValueRun(st, items[0]);
      ItemsTracked(Run(st, Tokens(items[0])), items[1..]);
      TrackedConcat(st, Tokens(items[0]), Roles(items[0]), ItemTokens(items[1..]), ItemRoles(items[1..]));
    }
  }

  lemma TrackedFirst(st: Scan, token: Token, role: Role, rest: seq<Token>, roles: seq<Role>)
    requires |rest| == |roles| && Tracked(Move(st, token), rest, roles)
    requires role == Key ==> st.expectingKey
    requires role == StringValue ==> !st.expectingKey
    ensures Tracked(st, [token] + rest, [role] + roles)
  {
    assert ([token] + rest)[1..] == rest && ([role] + roles)[1..] == roles;
  }

  lemma MemberTracked(st: Scan, key: string, value: seq<Token>, roles: seq<Role>, rest: seq<Token>,
                      restRoles: seq<Role>)
    requires st.inObject > 0 && st.expectingKey && |value| == |roles| && |rest| == |restRoles|
    requires var inner := st.(expectingKey := false); Tracked(inner, value, roles) && Run(inner, value) == st
    requires Tracked(st, rest, restRoles)
    ensures Tracked(st, [Text(key)] + value + rest, [Key] + roles + restRoles)
  {
    hide Run, Tracked;
    TrackedConcat(st.(expectingKey := false), value, roles, rest, restRoles);
    TrackedFirst(st, Text(key), Key, value + rest, roles + restRoles);
    Regroup([Text(key)], value, rest);
    Regroup([Key], roles, restRoles);
  }

  lemma {:induction false} MembersTracked(st: Scan, members: seq<Member>)
    requires st.inObject > 0 && st.expectingKey && forall m | m in members :: NoArrayStrings(m.value)
    ensures Tracked(st, MemberTokens(members), MemberRoles(members))
    decreases members, 0
  {
    if members != [] {
      hide Tokens, Roles, Run, Tracked;
      var inner, value := st.(expectingKey := false), members[0].value;
      assert members[0] in members;
      ValueTracked(inner, value);
      ValueRun(inner, value);
      MembersTracked(st, members[1..]);
      MemberTracked(st, members[0].key, Tokens(value), Roles(value), MemberTokens(members[1..]),
                    MemberRoles(members[1..]));
    }
  }

  /** In a document whose arrays have no direct string elements, at any depth, the scan
      expects a key at every key and at no string value. */
  lemma KeysTracked(members: seq<Member>)
    requires NoArrayStrings(Obj(members))
    ensures Tracked(START, Tokens(Obj(members)), Roles(Obj(members)))
  {
    ValueTracked(START, Obj(members));
  }
}
