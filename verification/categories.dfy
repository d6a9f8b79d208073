/** Categories: named gain groups.

    The audio manager is an explicit record here. It holds the global gain,
    the categories by name and the players whose output gain it keeps up to
    date. */
module Categories {

  /** How the audio data of a category's sounds is buffered. Only the two
      modes the category's queries test are told apart; every other mode
      of the library is `OtherBufferMode`. */
  datatype BufferMode = Managed | Streamed | OtherBufferMode

  /** Where a category's sounds read their data from: stored as given and
      never inspected by the category, so it stays an uninterpreted code. */
  datatype SourceMode = SourceMode(code: int)

  datatype Category = Category(name: string, gain: real, bufferMode: BufferMode, sourceMode: SourceMode)

  /** A new category starts at full gain and keeps the modes it was given. */
  function NewCategory(name: string, bufferMode: BufferMode, sourceMode: SourceMode): (c: Category)
    ensures c.gain == 1.0
    ensures c.name == name && c.bufferMode == bufferMode && c.sourceMode == sourceMode
  {
    Category(name, 1.0, bufferMode, sourceMode)
  }

  /** Whether the category's sounds are streamed. */
  predicate IsStreamed(c: Category)
    ensures IsStreamed(c) ==> c.bufferMode != Managed && c.bufferMode != OtherBufferMode
  {
    c.bufferMode == Streamed
  }

  /** Whether the category's sounds are memory-managed. */
  predicate IsMemoryManaged(c: Category)
    ensures IsMemoryManaged(c) ==> c.bufferMode != Streamed && c.bufferMode != OtherBufferMode
  {
    c.bufferMode == Managed
  }

  /** A category is never both streamed and memory-managed. */
  lemma StreamedAndManagedExclusive(c: Category)
    ensures IsStreamed(c) ==> !IsMemoryManaged(c)
    ensures IsStreamed(c) <==> c.bufferMode == Streamed
    ensures IsMemoryManaged(c) <==> c.bufferMode == Managed
  {
  }

  /** A playing instance: its category, its own gain and the gain last
      applied to its output. */
  datatype Player = Player(category: string, gain: real, appliedGain: real)

  datatype Manager = Manager(globalGain: real, categories: map<string, Category>, players: seq<Player>)

  /** Every player belongs to a known category. */
  predicate Wf(m: Manager)
  {
    forall i :: 0 <= i < |m.players| ==> m.players[i].category in m.categories
  }

  /** The gain a player should be heard at: global, category and own gain
      multiplied. */
  function Effective(m: Manager, p: Player): real
    requires p.category in m.categories
  {
    m.globalGain * m.categories[p.category].gain * p.gain
  }

  /** Every player's applied gain is up to date. */
  predicate Applied(m: Manager)
    requires Wf(m)
  {
    forall i :: 0 <= i < |m.players| ==> m.players[i].appliedGain == Effective(m, m.players[i])
  }

  /** Sets the global gain and re-applies the effective gain of every player. */
  function SetGlobalGain(m: Manager, value: real): (r: Manager)
    requires Wf(m)
    ensures Wf(r) && Applied(r)
    ensures r.globalGain == value && r.categories == m.categories
    ensures |r.players| == |m.players|
    ensures forall i :: 0 <= i < |m.players| ==>
      r.players[i].category == m.players[i].category && r.players[i].gain == m.players[i].gain
  {
    var m' := m.(globalGain := value);
    m'.(players := seq(|m.players|, i requires 0 <= i < |m.players| =>
                         m.players[i].(appliedGain := Effective(m', m.players[i]))))
  }

  /** Stores the category's new gain, then re-applies the manager's current
      global gain so that every player picks the change up. */
  function SetGain(m: Manager, name: string, value: real): (r: Manager)
    requires Wf(m) && name in m.categories
    ensures Wf(r) && Applied(r)
    ensures r.globalGain == m.globalGain
    ensures name in r.categories && r.categories[name].gain == value
    ensures r.categories == m.categories[name := m.categories[name].(gain := value)]
    ensures |r.players| == |m.players|
    ensures forall i :: 0 <= i < |m.players| ==>
      r.players[i].category == m.players[i].category && r.players[i].gain == m.players[i].gain
  {
    var stored := m.(categories := m.categories[name := m.categories[name].(gain := value)]);
    SetGlobalGain(stored, stored.globalGain)
  }

  /** A gain change reaches every player of the category at once, and the
      players of other categories keep the gain they had. */
  lemma GainChangeIsLive(m: Manager, name: string, value: real)
    requires Wf(m) && Applied(m) && name in m.categories
    ensures
      var r := SetGain(m, name, value);
      forall i :: 0 <= i < |m.players| ==>
        var p := m.players[i];
        r.players[i].appliedGain ==
          (if p.category == name then m.globalGain * value * p.gain else p.appliedGain)
  {
  }

  /** Setting a category's gain back to what it was restores the manager. */
  lemma SetGainUndone(m: Manager, name: string, value: real)
    requires Wf(m) && Applied(m) && name in m.categories
    ensures SetGain(SetGain(m, name, value), name, m.categories[name].gain) == m
  {
    var r := SetGain(SetGain(m, name, value), name, m.categories[name].gain);
    assert r.categories == m.categories;
    assert |r.players| == |m.players|;
    forall i | 0 <= i < |m.players|
      ensures r.players[i] == m.players[i]
    {
    }
    assert r.players == m.players;
  }

  /** A new category reports exactly the buffer mode it was given. */
  lemma NewCategoryModes(name: string, bufferMode: BufferMode, sourceMode: SourceMode)
    ensures IsStreamed(NewCategory(name, bufferMode, sourceMode)) <==> bufferMode == Streamed
    ensures IsMemoryManaged(NewCategory(name, bufferMode, sourceMode)) <==> bufferMode == Managed
  {
  }

  /** Changing a category's gain changes no category's name or modes, so
      every category answers `IsStreamed` and `IsMemoryManaged` as before. */
  lemma SetGainKeepsModes(m: Manager, name: string, value: real)
    requires Wf(m) && name in m.categories
    ensures
      var r := SetGain(m, name, value);
      && r.categories.Keys == m.categories.Keys
      && forall n :: n in m.categories ==>
        && r.categories[n].name == m.categories[n].name
        && r.categories[n].bufferMode == m.categories[n].bufferMode
        && r.categories[n].sourceMode == m.categories[n].sourceMode
        && IsStreamed(r.categories[n]) == IsStreamed(m.categories[n])
        && IsMemoryManaged(r.categories[n]) == IsMemoryManaged(m.categories[n])
  {
  }
}
