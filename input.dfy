/**
 * `InputHandler`: edge-triggered buffering of key presses and gamepad
 * buttons, their mapping to zones, draining on read, and the remap state
 * machine. JavaScript `Set`s iterate in insertion order, so each is a
 * sequence without repeats here.
 */
module Input {
  import opened Numbers
  import opened Wrappers

  ghost predicate Distinct<T>(s: seq<T>)
  {
    forall i, j :: 0 <= i < j < |s| ==> s[i] != s[j]
  }

  /** `Set.prototype.add` on an insertion-ordered set. */
  function SetAdd<T(==,!new)>(s: seq<T>, x: T): (r: seq<T>)
    ensures forall y :: y in r <==> y in s || y == x
    ensures Distinct(s) ==> Distinct(r)
    ensures x in s ==> r == s
  {
    if x in s then s else s + [x]
  }

  /** The insertion-ordered set of the elements of `s`: first occurrences, in order. */
  function Dedup<T(==,!new)>(s: seq<T>): seq<T>
    decreases |s|
  {
    if s == [] then [] else SetAdd(Dedup(s[..|s| - 1]), s[|s| - 1])
  }

  lemma {:induction false} DedupFacts<T(!new)>(s: seq<T>, y: T)
    ensures Distinct(Dedup(s))
    ensures y in Dedup(s) <==> y in s
    decreases |s|
  {
    if s != [] {
      DedupFacts(s[..|s| - 1], y);
      assert s == s[..|s| - 1] + [s[|s| - 1]];
    }
  }

  /** Adds every element of `xs`, in order. */
  function AddAll<T(==,!new)>(s: seq<T>, xs: seq<T>): seq<T>
    decreases |xs|
  {
    if xs == [] then s else SetAdd(AddAll(s, xs[..|xs| - 1]), xs[|xs| - 1])
  }

  lemma {:induction false} AddAllDistinct<T(!new)>(s: seq<T>, xs: seq<T>)
    requires Distinct(s)
    ensures Distinct(AddAll(s, xs))
    decreases |xs|
  {
    if xs != [] {
      AddAllDistinct(s, xs[..|xs| - 1]);
    }
  }

  // Key maps

  /** The default key map as written: upper-case keys `P W Q E O I` for zones 2 0 5 1 3 4. */
  const DefaultKeyMapAsWritten: map<string, int> := map["P" := 2, "W" := 0, "Q" := 5, "E" := 1, "O" := 3, "I" := 4]

  /** The default key map with the keys lower-cased, so that the lower-cased lookup can find them. */
  const DefaultKeyMap: map<string, int> := map["p" := 2, "w" := 0, "q" := 5, "e" := 1, "o" := 3, "i" := 4]

  const DefaultGamepadMap: map<string, int> := map["4" := 2, "3" := 0, "5" := 5, "2" := 1, "1" := 3, "0" := 4]

  /** The zones of the buffered keys, looked up lower-cased, unmapped keys skipped. */
  function KeyZones(keys: seq<string>, keyMap: map<string, int>): seq<int>
    decreases |keys|
  {
    if keys == [] then []
    else
      var key := ToLower(keys[|keys| - 1]);
      KeyZones(keys[..|keys| - 1], keyMap) + (if key in keyMap then [keyMap[key]] else [])
  }

  /** The zones of the buffered buttons, unmapped buttons skipped. */
  function ButtonZones(buttons: seq<string>, gpMap: map<string, int>): seq<int>
    decreases |buttons|
  {
    if buttons == [] then []
    else
      var b := buttons[|buttons| - 1];
      ButtonZones(buttons[..|buttons| - 1], gpMap) + (if b in gpMap then [gpMap[b]] else [])
  }

  /** A zone comes from the key buffer exactly when some buffered key maps to it after lower-casing. */
  lemma {:induction false} KeyZonesMeaning(keys: seq<string>, keyMap: map<string, int>, z: int)
    ensures z in KeyZones(keys, keyMap) <==> exists k :: k in keys && ToLower(k) in keyMap && keyMap[ToLower(k)] == z
    decreases |keys|
  {
    if keys != [] {
      var init := keys[..|keys| - 1];
      KeyZonesMeaning(init, keyMap, z);
      assert keys == init + [keys[|keys| - 1]];
      if exists k :: k in keys && ToLower(k) in keyMap && keyMap[ToLower(k)] == z {
        var k :| k in keys && ToLower(k) in keyMap && keyMap[ToLower(k)] == z;
        if k != keys[|keys| - 1] {
          assert k in init;
        }
      }
    }
  }

  lemma {:induction false} ButtonZonesMeaning(buttons: seq<string>, gpMap: map<string, int>, z: int)
    ensures z in ButtonZones(buttons, gpMap) <==> exists b :: b in buttons && b in gpMap && gpMap[b] == z
    decreases |buttons|
  {
    if buttons != [] {
      var init := buttons[..|buttons| - 1];
      ButtonZonesMeaning(init, gpMap, z);
      assert buttons == init + [buttons[|buttons| - 1]];
      if exists b :: b in buttons && b in gpMap && gpMap[b] == z {
        var b :| b in buttons && b in gpMap && gpMap[b] == z;
        if b != buttons[|buttons| - 1] {
          assert b in init;
        }
      }
    }
  }

  /** One key of the draining loop: its zone, if mapped, joins the set. */
  lemma KeyStep(keys: seq<string>, i: nat, keyMap: map<string, int>, zones: seq<int>)
    requires i < |keys| && zones == Dedup(KeyZones(keys[..i], keyMap))
    ensures var key := ToLower(keys[i]);
      Dedup(KeyZones(keys[..i + 1], keyMap)) == if key in keyMap then SetAdd(zones, keyMap[key]) else zones
  {
    assert keys[..i + 1][..i] == keys[..i];
    var before := KeyZones(keys[..i], keyMap);
    var key := ToLower(keys[i]);
    if key in keyMap {
      assert (before + [keyMap[key]])[..|before|] == before;
    } else {
      assert KeyZones(keys[..i + 1], keyMap) == before;
    }
  }

  /** One button of the draining loop, after the key zones `prefix`. */
  lemma ButtonStep(prefix: seq<int>, buttons: seq<string>, i: nat, gpMap: map<string, int>, zones: seq<int>)
    requires i < |buttons| && zones == Dedup(prefix + ButtonZones(buttons[..i], gpMap))
    ensures var b := buttons[i];
      Dedup(prefix + ButtonZones(buttons[..i + 1], gpMap)) == if b in gpMap then SetAdd(zones, gpMap[b]) else zones
  {
    assert buttons[..i + 1][..i] == buttons[..i];
    var before := prefix + ButtonZones(buttons[..i], gpMap);
    var b := buttons[i];
    if b in gpMap {
      assert prefix + ButtonZones(buttons[..i + 1], gpMap) == before + [gpMap[b]];
      assert (before + [gpMap[b]])[..|before|] == before;
    } else {
      assert prefix + ButtonZones(buttons[..i + 1], gpMap) == before;
    }
  }

  /** What `getPressedZones` returns for the given buffers and maps. */
  function PressedZones(keys: seq<string>, buttons: seq<string>, keyMap: map<string, int>, gpMap: map<string, int>): seq<int>
  {
    Dedup(KeyZones(keys, keyMap) + ButtonZones(buttons, gpMap))
  }

  /**
   * The pressed zones are distinct, and a zone is reported exactly when a
   * buffered key (lower-cased) or a buffered button maps to it.
   */
  lemma PressedZonesMeaning(keys: seq<string>, buttons: seq<string>, keyMap: map<string, int>, gpMap: map<string, int>, z: int)
    ensures Distinct(PressedZones(keys, buttons, keyMap, gpMap))
    ensures z in PressedZones(keys, buttons, keyMap, gpMap) <==>
      (exists k :: k in keys && ToLower(k) in keyMap && keyMap[ToLower(k)] == z)
      || (exists b :: b in buttons && b in gpMap && gpMap[b] == z)
  {
    DedupFacts(KeyZones(keys, keyMap) + ButtonZones(buttons, gpMap), z);
    KeyZonesMeaning(keys, keyMap, z);
    ButtonZonesMeaning(buttons, gpMap, z);
  }

  /** No key, whatever its case, finds a zone in the as-written default map: every key there has an upper-case letter. */
  lemma DefaultKeyMapAsWrittenNeverMatches(keys: seq<string>)
    ensures KeyZones(keys, DefaultKeyMapAsWritten) == []
  {
    if keys != [] {
      DefaultKeyMapAsWrittenNeverMatches(keys[..|keys| - 1]);
      var key := ToLower(keys[|keys| - 1]);
      ToLowerHasNoUpper(keys[|keys| - 1]);
    }
  }

  /** A handler left with the as-written default key map reports only the zones of its buffered buttons. */
  lemma DefaultKeyMapAsWrittenPressedZones(keys: seq<string>, buttons: seq<string>, gpMap: map<string, int>)
    ensures PressedZones(keys, buttons, DefaultKeyMapAsWritten, gpMap) == Dedup(ButtonZones(buttons, gpMap))
  {
    DefaultKeyMapAsWrittenNeverMatches(keys);
    assert [] + ButtonZones(buttons, gpMap) == ButtonZones(buttons, gpMap);
  }

  /** With the lower-cased defaults, `p` and `P` both reach zone 2, and `I` zone 4. */
  lemma DefaultKeyMapMatches()
    ensures KeyZones(["p"], DefaultKeyMap) == [2]
    ensures KeyZones(["P"], DefaultKeyMap) == [2]
    ensures KeyZones(["I", "x"], DefaultKeyMap) == [4]
  {
    assert ToLower("P") == "p";
    assert ToLower("p") == "p";
    assert ToLower("I") == "i";
    assert ToLower("x") == "x";
    assert ["I", "x"][..1] == ["I"];
    assert ["p"][..0] == [];
  }

  // Keyboard

  /** The key buffer and the held keys after a keydown of `k`. */
  function AfterKeyDown(buffer: seq<string>, pressed: set<string>, k: string): (r: (seq<string>, set<string>))
    ensures k in r.0 <==> k in buffer || k !in pressed
    ensures r.1 == pressed + {k}
  {
    (if k !in pressed then SetAdd(buffer, k) else buffer, pressed + {k})
  }

  /** Auto-repeat: a second keydown of a held key changes neither the buffer nor the held keys. */
  lemma KeyDownIdempotent(buffer: seq<string>, pressed: set<string>, k: string)
    ensures var r := AfterKeyDown(buffer, pressed, k);
      AfterKeyDown(r.0, r.1, k) == r
  {
  }

  /** Pressing, releasing and pressing again before a drain still buffers the key once. */
  lemma {:induction false} KeyBufferedOnce(buffer: seq<string>, pressed: set<string>, k: string)
    requires Distinct(buffer) && k !in pressed
    ensures var r := AfterKeyDown(buffer, pressed, k);
      var again := AfterKeyDown(r.0, r.1 - {k}, k);
      Distinct(again.0) && k in again.0 && |again.0| == |r.0|
  {
  }

  datatype RemapResult = KeyBound(key: string) | ButtonBound(button: nat)

  /** The buttons among `buttons[..n]` on a rising edge against `prev`. */
  function Rising(buttons: seq<bool>, prev: map<nat, bool>, n: nat): seq<nat>
    requires n <= |buttons|
  {
    if n == 0 then []
    else Rising(buttons, prev, n - 1) + (if buttons[n - 1] && !(n - 1 in prev && prev[n - 1]) then [n - 1] else [])
  }

  function ButtonNames(bs: seq<nat>): seq<string>
  {
    if bs == [] then [] else ButtonNames(bs[..|bs| - 1]) + [NatToString(bs[|bs| - 1])]
  }

  /** The pressed state of each of the first `n` buttons, keyed by index. */
  function States(buttons: seq<bool>, n: nat): (m: map<nat, bool>)
    requires n <= |buttons|
    ensures forall b: nat :: b in m <==> b < n
  {
    map b: nat | b < n :: buttons[b]
  }

  lemma StatesStep(prev: map<nat, bool>, buttons: seq<bool>, n: nat)
    requires n < |buttons|
    ensures prev + States(buttons, n + 1) == (prev + States(buttons, n))[n := buttons[n]]
    ensures n in prev + States(buttons, n) <==> n in prev
    ensures n in prev ==> (prev + States(buttons, n))[n] == prev[n]
  {
    var a, b := prev + States(buttons, n + 1), (prev + States(buttons, n))[n := buttons[n]];
    assert a.Keys == b.Keys;
    forall k | k in a ensures a[k] == b[k] {
    }
  }

  lemma AddAllSnoc(buffer: seq<string>, names: seq<string>, x: string)
    ensures AddAll(buffer, names + [x]) == SetAdd(AddAll(buffer, names), x)
  {
    assert (names + [x])[..|names|] == names;
  }

  lemma ButtonNamesSnoc(bs: seq<nat>, b: nat)
    ensures ButtonNames(bs + [b]) == ButtonNames(bs) + [NatToString(b)]
  {
    assert (bs + [b])[..|bs|] == bs;
  }

  /** How the rising buttons, and the buffer built from them, grow by one button. */
  lemma RisingStep(buttons: seq<bool>, prev: map<nat, bool>, n: nat, buffer: seq<string>)
    requires n < |buttons|
    ensures var up := Rising(buttons, prev, n);
      var step := buttons[n] && !(n in prev && prev[n]);
      && Rising(buttons, prev, n + 1) == up + (if step then [n] else [])
      && (up != [] ==> Rising(buttons, prev, n + 1)[0] == up[0])
      && AddAll(buffer, ButtonNames(Rising(buttons, prev, n + 1)))
         == if step then SetAdd(AddAll(buffer, ButtonNames(up)), NatToString(n)) else AddAll(buffer, ButtonNames(up))
  {
    var up := Rising(buttons, prev, n);
    if buttons[n] && !(n in prev && prev[n]) {
      ButtonNamesSnoc(up, n);
      AddAllSnoc(buffer, ButtonNames(up), NatToString(n));
    } else {
      assert Rising(buttons, prev, n + 1) == up;
    }
  }

  class InputHandler {
    var keyMap: map<string, int>
    var gpMap: map<string, int>
    var pressedKeys: set<string>
    var keyDownBuffer: seq<string>
    var gpButtonBuffer: seq<string>
    var gpButtonPrev: map<nat, bool>
    var remapActive: bool
    var remapTarget: Option<int>
    /** Whether a remap promise is waiting for its resolver to be called. */
    var remapPending: bool

    ghost predicate Valid()
      reads this
    {
      Distinct(keyDownBuffer) && Distinct(gpButtonBuffer)
      && remapPending == remapActive && (remapActive <==> remapTarget.Some?)
    }

    /** `new InputHandler(state)`: the given key and button maps, or the defaults when absent. */
    constructor (keys: Option<map<string, int>>, gp: Option<map<string, int>>)
      ensures Valid()
      ensures keyMap == (if keys.Some? then keys.value else DefaultKeyMap)
      ensures gpMap == (if gp.Some? then gp.value else DefaultGamepadMap)
      ensures pressedKeys == {} && keyDownBuffer == [] && gpButtonBuffer == [] && gpButtonPrev == map[]
      ensures !remapActive && remapTarget.None? && !remapPending
    {
      keyMap := if keys.Some? then keys.value else DefaultKeyMap;
      gpMap := if gp.Some? then gp.value else DefaultGamepadMap;
      pressedKeys, keyDownBuffer, gpButtonBuffer, gpButtonPrev := {}, [], [], map[];
      remapActive, remapTarget, remapPending := false, None, false;
    }

    /** The keydown listener; `r` is the value a waiting remap resolves with. */
    method OnKeyDown(k: string) returns (r: Option<RemapResult>)
      requires Valid()
      modifies this
      ensures Valid()
      ensures (keyDownBuffer, pressedKeys) == AfterKeyDown(old(keyDownBuffer), old(pressedKeys), k)
      ensures gpButtonBuffer == old(gpButtonBuffer) && gpButtonPrev == old(gpButtonPrev) && gpMap == old(gpMap)
      ensures old(remapActive) ==>
        keyMap == old(keyMap)[ToLower(k) := old(remapTarget).value]
        && !remapActive && remapTarget.None? && r == Some(KeyBound(ToLower(k)))
      ensures !old(remapActive) ==>
        keyMap == old(keyMap) && !remapActive && remapTarget == old(remapTarget) && r.None?
    {
      if k !in pressedKeys {
        keyDownBuffer := SetAdd(keyDownBuffer, k);
      }
      pressedKeys := pressedKeys + {k};
      r := None;
      if remapActive && remapPending {
        keyMap := keyMap[ToLower(k) := remapTarget.value];
        EndRemap();
        r := Some(KeyBound(ToLower(k)));
      }
    }

    /** The keyup listener: forgets that the key is held, and nothing else. */
    method OnKeyUp(k: string)
      modifies this`pressedKeys
      ensures pressedKeys == old(pressedKeys) - {k}
    {
      pressedKeys := pressedKeys - {k};
    }

    /**
     * One poll of the gamepad whose buttons' pressed states are `buttons`:
     * every button pressed now and not at the previous poll is buffered, the
     * first of them completes a waiting remap, and every button's state is
     * remembered.
     */
    method Poll(buttons: seq<bool>) returns (r: Option<RemapResult>)
      requires Valid()
      modifies this`gpButtonBuffer, this`gpButtonPrev, this`gpMap, this`remapActive, this`remapTarget, this`remapPending
      ensures Valid()
      ensures gpButtonBuffer == AddAll(old(gpButtonBuffer), ButtonNames(Rising(buttons, old(gpButtonPrev), |buttons|)))
      ensures gpButtonPrev == old(gpButtonPrev) + States(buttons, |buttons|)
      ensures var up := Rising(buttons, old(gpButtonPrev), |buttons|);
        if old(remapActive) && |up| > 0 then
          gpMap == old(gpMap)[NatToString(up[0]) := old(remapTarget).value]
          && !remapActive && remapTarget.None? && r == Some(ButtonBound(up[0]))
        else
          gpMap == old(gpMap) && remapActive == old(remapActive) && remapTarget == old(remapTarget) && r.None?
    {
      r := None;
      ghost var prev := gpButtonPrev;
      ghost var buffer := gpButtonBuffer;
      ghost var active, target, map0 := remapActive, remapTarget, gpMap;
      for idx := 0 to |buttons|
        invariant Valid()
        invariant gpButtonBuffer == AddAll(buffer, ButtonNames(Rising(buttons, prev, idx)))
        invariant gpButtonPrev == prev + States(buttons, idx)
        invariant var up := Rising(buttons, prev, idx);
          if active && |up| > 0 then
            gpMap == map0[NatToString(up[0]) := target.value]
            && !remapActive && remapTarget.None? && r == Some(ButtonBound(up[0]))
          else
            gpMap == map0 && remapActive == active && remapTarget == target && r.None?
      {
        StatesStep(prev, buttons, idx);
        RisingStep(buttons, prev, idx, buffer);
        var bound := VisitButton(idx, buttons[idx]);
        if bound.Some? {
          r := bound;
        }
      }
    }

    /** One step of the poll's `forEach`: button `idx` whose pressed state is now `pressed`. */
    method VisitButton(idx: nat, pressed: bool) returns (r: Option<RemapResult>)
      requires Valid()
      modifies this`gpButtonBuffer, this`gpButtonPrev, this`gpMap, this`remapActive, this`remapTarget, this`remapPending
      ensures Valid()
      ensures var up := pressed && !(idx in old(gpButtonPrev) && old(gpButtonPrev)[idx]);
        && gpButtonBuffer == (if up then SetAdd(old(gpButtonBuffer), NatToString(idx)) else old(gpButtonBuffer))
        && gpButtonPrev == old(gpButtonPrev)[idx := pressed]
        && if up && old(remapActive) then
             gpMap == old(gpMap)[NatToString(idx) := old(remapTarget).value]
             && !remapActive && remapTarget.None? && r == Some(ButtonBound(idx))
           else
             gpMap == old(gpMap) && remapActive == old(remapActive) && remapTarget == old(remapTarget) && r.None?
    {
      r := None;
      var wasPressed := idx in gpButtonPrev && gpButtonPrev[idx];
      if pressed && !wasPressed {
        gpButtonBuffer := SetAdd(gpButtonBuffer, NatToString(idx));
        if remapActive && remapPending {
          gpMap := gpMap[NatToString(idx) := remapTarget.value];
          EndRemap();
          r := Some(ButtonBound(idx));
        }
      }
      gpButtonPrev := gpButtonPrev[idx := pressed];
    }

    /** `getPressedZones()`: the zones of the buffered keys, then buttons, without repeats; both buffers are drained. */
    method GetPressedZones() returns (zones: seq<int>)
      requires Valid()
      modifies this`keyDownBuffer, this`gpButtonBuffer
      ensures Valid()
      ensures zones == PressedZones(old(keyDownBuffer), old(gpButtonBuffer), keyMap, gpMap)
      ensures keyDownBuffer == [] && gpButtonBuffer == []
    {
      zones := [];
      var keys, buttons := keyDownBuffer, gpButtonBuffer;
      for i := 0 to |keys|
        invariant zones == Dedup(KeyZones(keys[..i], keyMap))
      {
        KeyStep(keys, i, keyMap, zones);
        var key := ToLower(keys[i]);
        if key in keyMap {
          zones := SetAdd(zones, keyMap[key]);
        }
      }
      assert keys[..|keys|] == keys;
      ghost var fromKeys := KeyZones(keys, keyMap);
      assert fromKeys + ButtonZones(buttons[..0], gpMap) == fromKeys;
      for i := 0 to |buttons|
        invariant zones == Dedup(fromKeys + ButtonZones(buttons[..i], gpMap))
      {
        ButtonStep(fromKeys, buttons, i, gpMap, zones);
        var b := buttons[i];
        if b in gpMap {
          zones := SetAdd(zones, gpMap[b]);
        }
      }
      assert buttons[..|buttons|] == buttons;
      keyDownBuffer := [];
      gpButtonBuffer := [];
    }

    /** `getMappings()`: map values are copied, so the caller cannot change the handler's maps through them. */
    method GetMappings() returns (keys: map<string, int>, gp: map<string, int>)
      ensures keys == keyMap && gp == gpMap
    {
      keys, gp := keyMap, gpMap;
    }

    /** `startRemap(zone)`: rejected while a remap is active, otherwise arms one for `zone`. */
    method StartRemap(zone: int) returns (o: Outcome<string>)
      requires Valid()
      modifies this`remapActive, this`remapTarget, this`remapPending
      ensures Valid()
      ensures old(remapActive) ==> o.Fail? && remapActive && remapTarget == old(remapTarget)
      ensures !old(remapActive) ==> o.Pass? && remapActive && remapTarget == Some(zone) && remapPending
    {
      if remapActive {
        return Fail("Remapping already active");
      }
      remapActive, remapTarget := true, Some(zone);
      remapPending := true;
      return Pass;
    }

    /** `_endRemap()`. */
    method EndRemap()
      modifies this`remapActive, this`remapTarget, this`remapPending
      ensures !remapActive && remapTarget.None? && !remapPending
    {
      remapActive, remapTarget, remapPending := false, None, false;
    }

    /** `resetBuffers()`: empties both buffers; the maps and the held keys are untouched. */
    method ResetBuffers()
      modifies this`keyDownBuffer, this`gpButtonBuffer
      ensures keyDownBuffer == [] && gpButtonBuffer == []
    {
      keyDownBuffer, gpButtonBuffer := [], [];
    }
  }
}
