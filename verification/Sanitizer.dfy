/** The sanitizer's rewriting of a JSON tree (src/interceptors/sanitizer.rs:112-154). The scrubber of
    GraphQL query strings is a function of the string; texts are ASCII. */
module Sanitizer {
  import opened Tokens
  import opened Wrappers

  datatype Json =
    | Null
    | Bool(flag: bool)
    | Number(digits: string)
    | String(text: string)
    | Array(items: seq<Json>)
    | Object(members: seq<(string, Json)>)

  datatype Policy = Policy(sensitive: set<string>, scrub: string -> string)

  const REDACTED_PLACEHOLDER := "[REDACTED]"
  const REDACTED_BEARER := "Bearer [REDACTED]"
  const MAX_DEPTH: nat := 64

  predicate IsBearer(text: string) { "bearer " <= Lowered(text) }

  predicate IsQuery(key: string) { Lowered(key) == "query" }

  function Redaction(v: Json): Json {
    String(if v.String? && IsBearer(v.text) then REDACTED_BEARER else REDACTED_PLACEHOLDER)
  }

  // ---------------------------------------------------------------- the rewriting

  ghost function Sanitized(p: Policy, v: Json, depth: nat): Json
    decreases v, 1
  {
    if depth > MAX_DEPTH then v
    else match v
      case Object(members) =>
        Object(seq(|members|, i requires 0 <= i < |members| => (members[i].0, SanitizedMember(p, members[i].0, members[i].1, depth))))
      case Array(items) => Array(seq(|items|, i requires 0 <= i < |items| => Sanitized(p, items[i], depth + 1)))
      case String(text) => if IsBearer(text) then String(REDACTED_BEARER) else v
      case _ => v
  }

  ghost function SanitizedMember(p: Policy, key: string, v: Json, depth: nat): Json
    decreases v, 2
  {
    if Sensitive(p.sensitive, key) then Redaction(v)
    else if IsQuery(key) then if v.String? then String(p.scrub(v.text)) else v
    else Sanitized(p, v, depth + 1)
  }

  method SanitizeValueDepth(p: Policy, value: Json, depth: nat) returns (result: Json)
    ensures result == Sanitized(p, value, depth)
    decreases value
  {
    if depth > MAX_DEPTH { return value; }
    match value {
      case Object(members) =>
        var rewritten := members;
        for i := 0 to |members|
          invariant |rewritten| == |members|
          invariant forall j :: 0 <= j < i ==>
                      rewritten[j] == (members[j].0, SanitizedMember(p, members[j].0, members[j].1, depth))
          invariant forall j :: i <= j < |members| ==> rewritten[j] == members[j]
        {
          var (k, v) := members[i];
          var isSensitive := IsSensitiveKey(p.sensitive, k);
          if isSensitive {
            if v.String? && IsBearer(v.text) {
              rewritten := rewritten[i := (k, String(REDACTED_BEARER))];
            } else {
              rewritten := rewritten[i := (k, String(REDACTED_PLACEHOLDER))];
            }
          } else if IsQuery(k) {
            if v.String? { rewritten := rewritten[i := (k, String(p.scrub(v.text)))]; }
          } else {
            var w := SanitizeValueDepth(p, members[i].1, depth + 1);
            rewritten := rewritten[i := (k, w)];
          }
        }
        result := Object(rewritten);
      case Array(items) =>
        var rewritten := items;
        for i := 0 to |items|
          invariant |rewritten| == |items|
          invariant forall j :: 0 <= j < i ==> rewritten[j] == Sanitized(p, items[j], depth + 1)
          invariant forall j :: i <= j < |items| ==> rewritten[j] == items[j]
        {
          var w := SanitizeValueDepth(p, items[i], depth + 1);
          rewritten := rewritten[i := w];
        }
        result := Array(rewritten);
      case String(text) => result := if IsBearer(text) then String(REDACTED_BEARER) else value;
      case _ => result := value;
    }
  }

  method SanitizeValue(p: Policy, value: Json) returns (result: Json)
    ensures result == Sanitized(p, value, 0)
  {
    result := SanitizeValueDepth(p, value, 0);
  }

  // ---------------------------------------------------------------- what is left to redact

  /** Nothing down to the depth limit is left to redact: said of a tree without rewriting it. */
  ghost predicate Clean(p: Policy, v: Json, depth: nat)
    decreases v, 1
  {
    depth <= MAX_DEPTH ==>
      match v
      case Object(members) => forall i :: 0 <= i < |members| ==> CleanMember(p, members[i].0, members[i].1, depth)
      case Array(items) => forall i :: 0 <= i < |items| ==> Clean(p, items[i], depth + 1)
      case String(text) => IsBearer(text) ==> text == REDACTED_BEARER
      case _ => true
  }

  ghost predicate CleanMember(p: Policy, key: string, v: Json, depth: nat)
    decreases v, 2
  {
    if Sensitive(p.sensitive, key) then v == String(REDACTED_PLACEHOLDER) || v == String(REDACTED_BEARER)
    else if IsQuery(key) then v.String? ==> p.scrub(v.text) == v.text
    else Clean(p, v, depth + 1)
  }

  lemma PlaceholdersAreStable()
    ensures IsBearer(REDACTED_BEARER) && !IsBearer(REDACTED_PLACEHOLDER)
  {
    assert Lowered(REDACTED_BEARER)[..7] == "bearer ";
    assert Lowered(REDACTED_PLACEHOLDER)[0] == '[';
  }

  /** The sanitizer leaves a tree as it is exactly when nothing in it is left to redact. */
  lemma {:induction false} UnchangedIffClean(p: Policy, v: Json, depth: nat)
    ensures Sanitized(p, v, depth) == v <==> Clean(p, v, depth)
    decreases v, 1
  {
    if depth <= MAX_DEPTH {
      match v
      case Object(members) =>
        forall i | 0 <= i < |members|
          ensures SanitizedMember(p, members[i].0, members[i].1, depth) == members[i].1 <==>
                    CleanMember(p, members[i].0, members[i].1, depth)
        {
          MemberUnchangedIffClean(p, members[i].0, members[i].1, depth);
        }
        var after := Sanitized(p, v, depth).members;
        if after == members {
          forall i | 0 <= i < |members|
            ensures CleanMember(p, members[i].0, members[i].1, depth)
          {
            assert after[i] == members[i];
          }
        }
      case Array(items) =>
        forall i | 0 <= i < |items|
          ensures Sanitized(p, items[i], depth + 1) == items[i] <==> Clean(p, items[i], depth + 1)
        {
          UnchangedIffClean(p, items[i], depth + 1);
        }
        var after := Sanitized(p, v, depth).items;
        if after == items {
          forall i | 0 <= i < |items|
            ensures Clean(p, items[i], depth + 1)
          {
            assert after[i] == items[i];
          }
        }
      case _ =>
    }
  }

  lemma {:induction false} MemberUnchangedIffClean(p: Policy, key: string, v: Json, depth: nat)
    ensures SanitizedMember(p, key, v, depth) == v <==> CleanMember(p, key, v, depth)
    decreases v, 2
  {
    PlaceholdersAreStable();
    if !Sensitive(p.sensitive, key) && !IsQuery(key) { UnchangedIffClean(p, v, depth + 1); }
  }

  ghost predicate ScrubIsIdempotent(p: Policy) { forall q :: p.scrub(p.scrub(q)) == p.scrub(q) }

  /** After sanitizing, nothing down to the depth limit is left to redact. */
  lemma {:induction false} SanitizedIsClean(p: Policy, v: Json, depth: nat)
    requires ScrubIsIdempotent(p)
    ensures Clean(p, Sanitized(p, v, depth), depth)
    decreases v, 1
  {
    if depth <= MAX_DEPTH {
      match v
      case Object(members) =>
        forall i | 0 <= i < |members|
          ensures CleanMember(p, members[i].0, SanitizedMember(p, members[i].0, members[i].1, depth), depth)
        {
          SanitizedMemberIsClean(p, members[i].0, members[i].1, depth);
        }
      case Array(items) =>
        forall i | 0 <= i < |items|
          ensures Clean(p, Sanitized(p, items[i], depth + 1), depth + 1)
        {
          SanitizedIsClean(p, items[i], depth + 1);
        }
      case _ =>
    }
  }

  lemma {:induction false} SanitizedMemberIsClean(p: Policy, key: string, v: Json, depth: nat)
    requires ScrubIsIdempotent(p)
    ensures CleanMember(p, key, SanitizedMember(p, key, v, depth), depth)
    decreases v, 2
  {
    if !Sensitive(p.sensitive, key) && !IsQuery(key) { SanitizedIsClean(p, v, depth + 1); }
  }

  /** Sanitizing twice is sanitizing once. */
  lemma SanitizingIsIdempotent(p: Policy, v: Json, depth: nat)
    requires ScrubIsIdempotent(p)
    ensures Sanitized(p, Sanitized(p, v, depth), depth) == Sanitized(p, v, depth)
  {
    SanitizedIsClean(p, v, depth);
    UnchangedIffClean(p, Sanitized(p, v, depth), depth);
  }

  // ---------------------------------------------------------------- place by place

  /** The child number `i` of an object or an array. */
  function Child(v: Json, i: nat): Option<Json> {
    match v
    case Object(members) => if i < |members| then Some(members[i].1) else None
    case Array(items) => if i < |items| then Some(items[i]) else None
    case _ => None
  }

  function At(v: Json, path: seq<nat>): Option<Json> {
    if path == [] then Some(v)
    else
      var child := Child(v, path[0]);
      if child.None? then None else At(child.value, path[1..])
  }

  function KeyOf(v: Json, i: nat): Option<string> {
    if v.Object? && i < |v.members| then Some(v.members[i].0) else None
  }

  /** Neither a sensitive key nor `query` lies on the way. */
  ghost predicate OpenWay(p: Policy, v: Json, path: seq<nat>) {
    path != [] ==>
      && (KeyOf(v, path[0]).Some? ==> !Sensitive(p.sensitive, KeyOf(v, path[0]).value) && !IsQuery(KeyOf(v, path[0]).value))
      && (Child(v, path[0]).Some? ==> OpenWay(p, Child(v, path[0]).value, path[1..]))
  }

  predicate SameKind(v: Json, w: Json) {
    match v
    case Null => w.Null?
    case Bool(flag) => w == v
    case Number(digits) => w == v
    case String(_) => w.String?
    case Array(items) => w.Array? && |w.items| == |items|
    case Object(members) => w.Object? && |w.members| == |members|
  }

  /** Along an open way sanitizing goes on as if it had begun there: the place survives, with its kind,
      its keys and its length. */
  lemma {:induction false} PlacesSurvive(p: Policy, v: Json, depth: nat, path: seq<nat>)
    requires OpenWay(p, v, path) && At(v, path).Some?
    ensures At(Sanitized(p, v, depth), path) == Some(Sanitized(p, At(v, path).value, depth + |path|))
    ensures var before, after := At(v, path).value, At(Sanitized(p, v, depth), path).value;
            SameKind(before, after) && forall i :: KeyOf(after, i) == KeyOf(before, i)
  {
    if path != [] {
      if depth > MAX_DEPTH {
        BeyondTheLimit(p, At(v, path).value, depth + |path|);
      } else {
        PlacesSurvive(p, Child(v, path[0]).value, depth + 1, path[1..]);
      }
    }
  }

  lemma BeyondTheLimit(p: Policy, v: Json, depth: nat)
    requires depth > MAX_DEPTH
    ensures Sanitized(p, v, depth) == v
  {}

  /** Every member under a sensitive key, in an object that an open way of at most 64 steps leads to,
      is replaced by a placeholder, whatever it was. */
  lemma SensitiveMembersAreRedacted(p: Policy, v: Json, path: seq<nat>, i: nat)
    requires OpenWay(p, v, path) && At(v, path).Some? && |path| <= 64
    requires var o := At(v, path).value; KeyOf(o, i).Some? && Sensitive(p.sensitive, KeyOf(o, i).value)
    ensures At(Sanitized(p, v, 0), path).Some?
    ensures var before, after := At(v, path).value, At(Sanitized(p, v, 0), path).value;
            && KeyOf(after, i) == KeyOf(before, i)
            && Child(after, i) == Some(String(
                 if Child(before, i).value.String? && IsBearer(Child(before, i).value.text) then "Bearer [REDACTED]" else "[REDACTED]"))
  {
    PlacesSurvive(p, v, 0, path);
  }

  /** A string at such a place keeps its text, unless it is a bearer token. */
  lemma BearerStringsAreRedacted(p: Policy, v: Json, path: seq<nat>)
    requires OpenWay(p, v, path) && At(v, path).Some? && |path| <= 64 && At(v, path).value.String?
    ensures var text := At(v, path).value.text;
            At(Sanitized(p, v, 0), path) == Some(String(if IsBearer(text) then "Bearer [REDACTED]" else text))
  {
    PlacesSurvive(p, v, 0, path);
  }

  lemma LowerOfOne(c: char, small: char, large: char)
    requires IsLetter(small) && large == small - ' '
    ensures Lower(c) == small <==> c in [small, large]
  {}

  /** A bearer token begins with `bearer` and a blank, in whatever case. */
  lemma BearerIff(text: string)
    ensures IsBearer(text) <==>
              && |text| >= 7 && text[0] in ['b', 'B'] && text[1] in ['e', 'E'] && text[2] in ['a', 'A'] && text[3] in ['r', 'R']
              && text[4] in ['e', 'E'] && text[5] in ['r', 'R'] && text[6] == ' '
  {
    var b := "bearer ";
    assert b == ['b', 'e', 'a', 'r', 'e', 'r', ' '];
    if |text| >= 7 {
      assert b <= Lowered(text) <==> forall i :: 0 <= i < 7 ==> Lower(text[i]) == b[i] by {
        if forall i :: 0 <= i < 7 ==> Lower(text[i]) == b[i] { assert Lowered(text)[..7] == b; }
      }
      LowerOfOne(text[0], 'b', 'B');
      LowerOfOne(text[1], 'e', 'E');
      LowerOfOne(text[2], 'a', 'A');
      LowerOfOne(text[3], 'r', 'R');
      LowerOfOne(text[4], 'e', 'E');
      LowerOfOne(text[5], 'r', 'R');
    }
  }

  lemma QueryIff(key: string)
    ensures IsQuery(key) <==>
              |key| == 5 && key[0] in ['q', 'Q'] && key[1] in ['u', 'U'] && key[2] in ['e', 'E'] && key[3] in ['r', 'R'] && key[4] in ['y', 'Y']
  {
    assert "query" == ['q', 'u', 'e', 'r', 'y'];
    assert |Lowered(key)| == |key|;
    if |key| == 5 {
      assert Lowered(key) == [Lower(key[0]), Lower(key[1]), Lower(key[2]), Lower(key[3]), Lower(key[4])];
      LowerOfOne(key[0], 'q', 'Q');
      LowerOfOne(key[1], 'u', 'U');
      LowerOfOne(key[2], 'e', 'E');
      LowerOfOne(key[3], 'r', 'R');
      LowerOfOne(key[4], 'y', 'Y');
    }
  }

  /** A member under `query` is scrubbed if it is a string and otherwise left alone, with all that
      lies below it. */
  lemma QueryMembersAreNotEntered(p: Policy, v: Json, path: seq<nat>, i: nat)
    requires OpenWay(p, v, path) && At(v, path).Some? && |path| <= 64
    requires var o := At(v, path).value; KeyOf(o, i).Some? && !Sensitive(p.sensitive, KeyOf(o, i).value) && IsQuery(KeyOf(o, i).value)
    ensures At(Sanitized(p, v, 0), path).Some?
    ensures var before, after := Child(At(v, path).value, i), Child(At(Sanitized(p, v, 0), path).value, i);
            after == if before.value.String? then Some(String(p.scrub(before.value.text))) else before
  {
    PlacesSurvive(p, v, 0, path);
  }

  /** Past 64 open steps nothing is touched, sensitive or not. */
  lemma DeepPlacesAreUntouched(p: Policy, v: Json, path: seq<nat>)
    requires OpenWay(p, v, path) && At(v, path).Some? && |path| > 64
    ensures At(Sanitized(p, v, 0), path) == At(v, path)
  {
    PlacesSurvive(p, v, 0, path);
    BeyondTheLimit(p, At(v, path).value, |path|);
  }
}
