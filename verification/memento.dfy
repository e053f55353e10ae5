/** Memento: an `Originator` snapshots its whole attribute dictionary
    (`vars(self)`) and can later replace its attributes by a snapshot's. The
    serialised form is not modelled: a memento is a value copy of the
    dictionary, opaque to everything but the originator. */
module Memento {

  /** The Python values the driver stores in attributes. */
  datatype PyValue = PyNone | PyBool(b: bool) | PyInt(i: int) | PyStr(s: string)

  /** An originator is its attribute dictionary. */
  datatype Originator = Originator(attrs: map<string, PyValue>)

  /** A snapshot of an attribute dictionary. */
  datatype Memento = Memento(saved: map<string, PyValue>)

  const StateAttr: string := "_state"

  /** `Originator()`: a single attribute, `_state`, holding None. */
  function NewOriginator(): (o: Originator)
    ensures o.attrs.Keys == {StateAttr} && o.attrs[StateAttr] == PyNone
  {
    Originator(map[StateAttr := PyNone])
  }

  /** Assigning an attribute, such as `originator._state = True`. */
  function SetAttr(o: Originator, name: string, v: PyValue): (r: Originator)
    ensures r.attrs.Keys == o.attrs.Keys + {name} && r.attrs[name] == v
    ensures forall n :: n in o.attrs && n != name ==> r.attrs[n] == o.attrs[n]
  {
    Originator(o.attrs[name := v])
  }

  /** `create_memento`: a copy of every attribute as it is now. */
  function CreateMemento(o: Originator): (m: Memento)
    ensures m.saved.Keys == o.attrs.Keys
    ensures forall n :: n in o.attrs ==> m.saved[n] == o.attrs[n]
  {
    Memento(o.attrs)
  }

  /** `dict.update`: keys of `d` take `d`'s values, other keys keep theirs. */
  function Update(attrs: map<string, PyValue>, d: map<string, PyValue>): (r: map<string, PyValue>)
    ensures r.Keys == attrs.Keys + d.Keys
    ensures forall n :: n in d ==> r[n] == d[n]
    ensures forall n :: n in attrs && n !in d ==> r[n] == attrs[n]
  {
    attrs + d
  }

  /** `set_memento`: `vars(self).clear()` and then `vars(self).update(saved)`,
      so no attribute of the current state survives unless it was saved. */
  function SetMemento(o: Originator, m: Memento): (r: Originator)
    ensures r.attrs.Keys == m.saved.Keys
    ensures forall n :: n in m.saved ==> r.attrs[n] == m.saved[n]
  {
    var cleared: map<string, PyValue> := map[];
    Originator(Update(cleared, m.saved))
  }

  /** Restoring a snapshot reproduces the originator exactly as it was when
      the snapshot was taken, whatever state it has reached since. */
  lemma RestoreSnapshot(o: Originator, later: Originator)
    ensures SetMemento(later, CreateMemento(o)) == o
  {
  }

  /** Restoring right after snapshotting changes nothing. */
  lemma RestoreIdempotent(o: Originator)
    ensures SetMemento(o, CreateMemento(o)) == o
  {
  }

  /** An attribute added after the snapshot is gone after the restore: the
      restore is never a partial overlay of the old state on the new. */
  lemma RestoreDropsNewAttrs(o: Originator, name: string, v: PyValue)
    requires name !in o.attrs
    ensures name in SetAttr(o, name, v).attrs
    ensures name !in SetMemento(SetAttr(o, name, v), CreateMemento(o)).attrs
  {
  }

  /** The driver: snapshot with `_state` None, set it to True, restore, and
      `_state` is None again. */
  lemma DriverRestore()
    ensures var o := NewOriginator();
            var m := CreateMemento(o);
            var changed := SetAttr(o, StateAttr, PyBool(true));
            && changed.attrs[StateAttr] == PyBool(true)
            && SetMemento(changed, m).attrs[StateAttr] == PyNone
  {
  }
}
