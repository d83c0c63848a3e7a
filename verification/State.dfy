/** The index of sandboxes, as a value: lookup and the four ways in which it is changed. */
module State {
  import opened Wrappers
  import opened Policy

  datatype Record = Record(
    id: string,
    name: string,
    mechanism: MechanismKind,
    runtimeId: string,
    policyHash: string,
    workdir: string,
    createdAt: int,
    proxyPort: Option<Port>,
    logPath: Option<string>,
    ephemeral: bool)

  datatype State = State(lastUsed: Option<string>, sandboxes: seq<Record>)

  const EMPTY_STATE := State(None, [])

  // ---------- Lookup ----------

  predicate Answers(r: Record, key: string) {
    r.name == key || r.id == key
  }

  /** The first record whose name or id is the key. */
  function Position(rs: seq<Record>, key: string): (p: Option<nat>)
    ensures p.Some? ==> p.value < |rs| && Answers(rs[p.value], key)
    ensures p.Some? ==> forall j :: 0 <= j < p.value ==> !Answers(rs[j], key)
    ensures p.None? ==> forall j :: 0 <= j < |rs| ==> !Answers(rs[j], key)
  {
    if rs == [] then None
    else if Answers(rs[0], key) then Some(0)
    else
      match Position(rs[1..], key)
      case None => None
      case Some(n) => Some(n + 1)
  }

  function Find(rs: seq<Record>, key: string): Option<Record> {
    match Position(rs, key)
    case None => None
    case Some(n) => Some(rs[n])
  }

  /** The record a command acts on: by key, else the last used one, else the newest. */
  function GetOrLast(s: State, key: Option<string>): Option<Record> {
    match key
    case Some(k) => Find(s.sandboxes, k)
    case None =>
      var last := if s.lastUsed.Some? then Find(s.sandboxes, s.lastUsed.value) else None;
      if last.Some? then last
      else if s.sandboxes == [] then None
      else Some(s.sandboxes[|s.sandboxes| - 1])
  }

  // ---------- Change ----------

  predicate HasName(rs: seq<Record>, name: string) {
    exists i :: 0 <= i < |rs| && rs[i].name == name
  }

  /** None when the name is taken. */
  function InsertInto(s: State, r: Record): Option<State> {
    if HasName(s.sandboxes, r.name) then None
    else Some(State(Some(r.name), s.sandboxes + [r]))
  }

  function LastName(rs: seq<Record>): Option<string> {
    if rs == [] then None else Some(rs[|rs| - 1].name)
  }

  /** The state without the record that answers to the key, and that record. */
  function RemoveFrom(s: State, key: string): Option<(State, Record)> {
    match Position(s.sandboxes, key)
    case None => None
    case Some(n) =>
      var gone := s.sandboxes[n];
      var rest := s.sandboxes[..n] + s.sandboxes[n + 1..];
      Some((State(if s.lastUsed == Some(gone.name) then LastName(rest) else s.lastUsed, rest), gone))
  }

  function NamePosition(rs: seq<Record>, name: string): (p: Option<nat>)
    ensures p.Some? ==> p.value < |rs| && rs[p.value].name == name
    ensures p.Some? ==> forall j :: 0 <= j < p.value ==> rs[j].name != name
    ensures p.None? ==> !HasName(rs, name)
  {
    if rs == [] then None
    else if rs[0].name == name then Some(0)
    else
      assert HasName(rs, name) ==> HasName(rs[1..], name) by {
        if HasName(rs, name) {
          var i :| 0 <= i < |rs| && rs[i].name == name;
          assert rs[1..][i - 1].name == name;
        }
      }
      match NamePosition(rs[1..], name)
      case None => None
      case Some(n) => Some(n + 1)
  }

  /** None when no record has the name. */
  function WithHash(s: State, name: string, hash: string): Option<State> {
    match NamePosition(s.sandboxes, name)
    case None => None
    case Some(n) =>
      Some(State(Some(name), s.sandboxes[n := s.sandboxes[n].(policyHash := hash)]))
  }

  /** Touching does not check the name. */
  function Touched(s: State, name: string): State {
    s.(lastUsed := Some(name))
  }

  // ---------- Properties of a state ----------

  ghost predicate NamesDistinct(rs: seq<Record>) {
    forall i, j :: 0 <= i < j < |rs| ==> rs[i].name != rs[j].name
  }

  ghost predicate IdsDistinct(rs: seq<Record>) {
    forall i, j :: 0 <= i < j < |rs| ==> rs[i].id != rs[j].id
  }

  /** The last used sandbox is one of the stored ones, and there is none only in an empty store. */
  ghost predicate LastUsedStored(s: State) {
    match s.lastUsed
    case None => s.sandboxes == []
    case Some(n) => HasName(s.sandboxes, n)
  }

  /** No record is reachable under another record's id. */
  ghost predicate NoCrossNames(rs: seq<Record>) {
    forall i, j :: 0 <= i < |rs| && 0 <= j < |rs| && rs[i].name == rs[j].id ==> i == j
  }

  /** Whatever `last_used` says, asking for no name finds a record exactly when there is one. */
  lemma GetOrLastFinds(s: State)
    ensures GetOrLast(s, None).Some? <==> s.sandboxes != []
    ensures GetOrLast(s, None).Some? ==> GetOrLast(s, None).value in s.sandboxes
  {
  }

  /** When the last used name is stored, the newest record is never a mere fallback. */
  lemma GetOrLastUsesLast(s: State)
    requires LastUsedStored(s) && s.sandboxes != []
    ensures s.lastUsed.Some?
    ensures GetOrLast(s, None) == Find(s.sandboxes, s.lastUsed.value)
    ensures GetOrLast(s, None).Some? && Answers(GetOrLast(s, None).value, s.lastUsed.value)
    ensures NamesDistinct(s.sandboxes) && NoCrossNames(s.sandboxes) ==>
              GetOrLast(s, None).value.name == s.lastUsed.value
  {
    var name := s.lastUsed.value;
    var i :| 0 <= i < |s.sandboxes| && s.sandboxes[i].name == name;
    assert Answers(s.sandboxes[i], name);
    var n := Position(s.sandboxes, name).value;
    assert n <= i;
    if NoCrossNames(s.sandboxes) {
      assert s.sandboxes[i].name == s.sandboxes[n].id ==> i == n;
    }
  }

  // ---------- Lookup is a map ----------

  /** With distinct keys and no cross names, a key finds a record if and only if it is that record's name or id. */
  lemma FindIsMap(rs: seq<Record>, key: string, i: nat)
    requires NamesDistinct(rs) && IdsDistinct(rs) && NoCrossNames(rs)
    requires i < |rs|
    ensures Position(rs, key) == Some(i) <==> Answers(rs[i], key)
  {
    if Answers(rs[i], key) {
      var n := Position(rs, key).value;
      assert rs[n].name == rs[i].id ==> n == i;
      assert rs[i].name == rs[n].id ==> n == i;
    }
  }

  /** A record's name and its id retrieve the same record. */
  lemma NameAndIdAgree(rs: seq<Record>, i: nat)
    requires NamesDistinct(rs) && IdsDistinct(rs) && NoCrossNames(rs)
    requires i < |rs|
    ensures Find(rs, rs[i].name) == Find(rs, rs[i].id) == Some(rs[i])
  {
    FindIsMap(rs, rs[i].name, i);
    FindIsMap(rs, rs[i].id, i);
  }

  /** Removing takes out exactly the record that lookup returns, and keeps the others in order. */
  lemma RemoveTakesFound(s: State, key: string)
    ensures RemoveFrom(s, key).Some? <==> Find(s.sandboxes, key).Some?
    ensures RemoveFrom(s, key).Some? ==>
              var (rest, gone) := RemoveFrom(s, key).value;
              && Some(gone) == Find(s.sandboxes, key)
              && exists before, after ::
                   s.sandboxes == before + [gone] + after && rest.sandboxes == before + after
  {
    var p := Position(s.sandboxes, key);
    if p.Some? {
      var n := p.value;
      var before, after := s.sandboxes[..n], s.sandboxes[n + 1..];
      assert s.sandboxes == before + [s.sandboxes[n]] + after;
    }
  }

  /** Removing by name what was just inserted restores the list, if and only if no older id is that name. */
  lemma InsertThenRemove(s: State, r: Record)
    requires InsertInto(s, r).Some?
    ensures var removed := RemoveFrom(InsertInto(s, r).value, r.name);
            removed.Some? &&
            (removed.value.0.sandboxes == s.sandboxes <==>
             forall i :: 0 <= i < |s.sandboxes| ==> s.sandboxes[i].id != r.name)
  {
    var rs := s.sandboxes + [r];
    assert Answers(rs[|s.sandboxes|], r.name);
    var n := Position(rs, r.name).value;
    var rest := rs[..n] + rs[n + 1..];
    if n == |s.sandboxes| {
      assert rest == s.sandboxes;
      forall i | 0 <= i < |s.sandboxes|
        ensures s.sandboxes[i].id != r.name
      {
        assert !Answers(rs[i], r.name);
      }
    } else {
      assert rs[n] == s.sandboxes[n];
      assert s.sandboxes[n].name != r.name;
      assert s.sandboxes[n].id == r.name;
      assert rest[|rest| - 1] == r;
      assert HasName(rest, r.name) && !HasName(s.sandboxes, r.name);
    }
  }
}
