/** Observer: a `Core` subject keeps an ordered, duplicate-free list of
    attached `TempViewer` observers; `notify` calls `update` on each of them
    except an optional modifier, and each `update` prints the subject's name
    and temperature. */
module Observer {
  import opened Exceptions
  import opened Sequences

  /** The identity of an observer object: Python compares observers with
      `==`, which for `TempViewer` is object identity. */
  type ObserverRef = nat

  /** A `Core` subject: its name, its temperature and its `_observers` list. */
  datatype Core = Core(name: string, temp: int, observers: seq<ObserverRef>)

  /** What one `TempViewer.update` prints: the subject's name and temperature,
      tagged with the viewer that printed it. */
  datatype Reading = Reading(viewer: ObserverRef, name: string, temp: int)

  /** `Core(name)`: temperature 0, nobody attached. */
  function NewCore(name: string): (c: Core)
    ensures c.observers == [] && c.name == name && c.temp == 0
  {
    Core(name, 0, [])
  }

  /** `attach`: an observer already present leaves the subject unchanged; a new
      one goes at the end. The list stays duplicate-free. */
  function Attach(c: Core, o: ObserverRef): (r: Core)
    ensures r.name == c.name && r.temp == c.temp
    ensures o in c.observers ==> r == c
    ensures o !in c.observers ==> r.observers == c.observers + [o]
    ensures forall v :: v in r.observers <==> v in c.observers || v == o
    ensures Distinct(c.observers) ==> Distinct(r.observers)
  {
    if o in c.observers then c else c.(observers := c.observers + [o])
  }

  /** Attaching the same observer twice is the same as attaching it once. */
  lemma AttachIdempotent(c: Core, o: ObserverRef)
    ensures Attach(Attach(c, o), o) == Attach(c, o)
  {
  }

  /** The observers `notify(modifier)` updates, in attachment order: every one
      whose identity differs from the modifier (`None` differs from all). */
  function Notified(obs: seq<ObserverRef>, modifier: Option<ObserverRef>): (r: seq<ObserverRef>)
    ensures |r| <= |obs|
    ensures forall v :: v in r ==> v in obs && modifier != Some(v)
  {
    if |obs| == 0 then []
    else if modifier != Some(obs[0]) then [obs[0]] + Notified(obs[1..], modifier)
    else Notified(obs[1..], modifier)
  }

  /** The viewers that printed the readings, in printing order. */
  function Viewers(rs: seq<Reading>): (vs: seq<ObserverRef>)
    ensures |vs| == |rs| && forall i :: 0 <= i < |rs| ==> vs[i] == rs[i].viewer
  {
    seq(|rs|, i requires 0 <= i < |rs| => rs[i].viewer)
  }

  /** `notify(modifier)`: every attached observer other than the modifier
      prints the subject's current state, exactly once when the list is
      duplicate-free. */
  function Notify(c: Core, modifier: Option<ObserverRef>): (r: seq<Reading>)
    ensures forall i :: 0 <= i < |r| ==> r[i].name == c.name && r[i].temp == c.temp
    ensures forall v :: v in Viewers(r) <==> v in c.observers && modifier != Some(v)
    ensures Distinct(c.observers) ==> Distinct(Viewers(r))
    ensures Viewers(r) == Notified(c.observers, modifier)
  {
    var updated := Notified(c.observers, modifier);
    var r := seq(|updated|, i requires 0 <= i < |updated| => Reading(updated[i], c.name, c.temp));
    assert Viewers(r) == updated;
    forall v ensures v in updated <==> v in c.observers && modifier != Some(v) {
      NotifiedMembership(c.observers, modifier, v);
    }
    if Distinct(c.observers) then NotifiedOnce(c.observers, modifier); r else r
  }

  /** An observer is updated iff it is attached and is not the modifier. */
  lemma {:induction false} NotifiedMembership(obs: seq<ObserverRef>, modifier: Option<ObserverRef>, v: ObserverRef)
    ensures v in Notified(obs, modifier) <==> v in obs && modifier != Some(v)
  {
    if |obs| > 0 {
      NotifiedMembership(obs[1..], modifier, v);
      assert v in obs <==> v == obs[0] || v in obs[1..];
    }
  }

  /** Notifying a list in two parts updates the first part's observers before
      the second's: attachment order is kept. */
  lemma {:induction false} NotifiedConcat(a: seq<ObserverRef>, b: seq<ObserverRef>, modifier: Option<ObserverRef>)
    ensures Notified(a + b, modifier) == Notified(a, modifier) + Notified(b, modifier)
  {
    if |a| == 0 {
      assert a + b == b;
    } else {
      assert (a + b)[0] == a[0] && (a + b)[1..] == a[1..] + b;
      NotifiedConcat(a[1..], b, modifier);
    }
  }

  /** Without a modifier every attached observer is updated, in order. */
  lemma {:induction false} NotifiedAll(obs: seq<ObserverRef>)
    ensures Notified(obs, None) == obs
  {
    if |obs| > 0 {
      NotifiedAll(obs[1..]);
      assert obs == [obs[0]] + obs[1..];
    }
  }

  /** On a duplicate-free list each observer is updated at most once, and the
      count is all of them, less one when the modifier is attached. */
  lemma {:induction false} NotifiedOnce(obs: seq<ObserverRef>, modifier: Option<ObserverRef>)
    requires Distinct(obs)
    ensures Distinct(Notified(obs, modifier))
    ensures |Notified(obs, modifier)| == |obs| - (if modifier.Some? && modifier.value in obs then 1 else 0)
  {
    if |obs| > 0 {
      assert Distinct(obs[1..]);
      NotifiedOnce(obs[1..], modifier);
      assert obs[0] !in obs[1..];
      assert modifier.Some? && modifier.value in obs <==>
             modifier == Some(obs[0]) || (modifier.Some? && modifier.value in obs[1..]);
    }
  }

  /** The `temp` setter as written: it stores the temperature and notifies
      nobody. */
  function SetTempAsWritten(c: Core, t: int): (r: (Core, seq<Reading>))
    ensures r.0 == c.(temp := t)
    ensures r.1 == []
  {
    (c.(temp := t), [])
  }

  /** The setter the driver's comments describe: store the temperature, then
      `notify()` with no modifier. */
  function SetTemp(c: Core, t: int): (r: (Core, seq<Reading>))
    ensures r.0 == c.(temp := t)
    ensures Viewers(r.1) == c.observers
    ensures forall i :: 0 <= i < |r.1| ==> r.1[i].temp == t
  {
    NotifiedAll(c.observers);
    var c' := c.(temp := t);
    (c', Notify(c', None))
  }

  /** After the corrected setter every attached observer has received exactly
      one reading, in attachment order, carrying the new temperature. */
  lemma SetTempNotifiesEach(c: Core, t: int)
    ensures |SetTemp(c, t).1| == |c.observers|
    ensures forall i :: 0 <= i < |c.observers| ==> SetTemp(c, t).1[i] == Reading(c.observers[i], c.name, t)
  {
  }

  /** The subject and viewers of the driver: "Core 1" with viewers 1 and 2. */
  function DriverCore(): Core {
    Attach(Attach(NewCore("Core 1"), 1), 2)
  }

  /** As written, setting the temperature to 80 and then 90 prints nothing,
      though two viewers are attached. */
  lemma DriverAsWrittenSilent()
    ensures |DriverCore().observers| == 2
    ensures SetTempAsWritten(DriverCore(), 80).1 == []
    ensures SetTempAsWritten(SetTempAsWritten(DriverCore(), 80).0, 90).1 == []
  {
  }

  /** With the corrected setter each change prints one line per viewer. */
  lemma DriverCorrected()
    ensures var (c80, t80) := SetTemp(DriverCore(), 80);
            var (_, t90) := SetTemp(c80, 90);
            t80 + t90 == [Reading(1, "Core 1", 80), Reading(2, "Core 1", 80),
                          Reading(1, "Core 1", 90), Reading(2, "Core 1", 90)]
  {
  }
}
