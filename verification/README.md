# Design-pattern snippets with sequential logic, modelled in Dafny

The repository is a catalogue of small Python demonstrations of classic design
patterns, all in `designpatterns.py`. This project models the snippets that hold
real sequential logic. Each is a module of immutable datatypes and pure
functions. Wherever the Python prints, the model returns the printed lines as a
trace.

- `Factory`: `get_pet` looks a key up in a fixed table, `dog` → `Dog("Hope")` and
  `cat` → `Cat("Peace")`. Any other key raises `KeyError`.
- `Decorator`: `make_blink` wraps a string-returning function. Its result comes
  back between `<blink>` and `</blink`. The closing tag has no `>`, exactly as the
  source writes it.
- `Composite`: a tree of `Child` leaves and `Composite` nodes. The nodes print
  their names in pre-order. The module also covers `append_child` and
  `remove_child`.
- `Observer`: a `Core` subject with a duplicate-free, ordered observer list. It
  has `attach`, `notify(modifier)` and the `temp` setter.
- `Chain`: a linked chain of `ConcreteHandler1` and `DefaultHandler`, plus
  `Client.delegate`.
- `Command`: a `Macro` queue of Copy, Paste and Save commands, and `run`.
- `Mediator`: `ConcreteMediator.add`/`distribute` and `ConcreteColleague.send`.
- `Memento`: `Originator.create_memento`/`set_memento` over the attribute
  dictionary.
- `Exceptions` (Python's `KeyError`, `ValueError` and `AttributeError` as a
  `Result`, plus an `Option` for "value or None") and `Sequences` (`Distinct`,
  `Occurrences`) are shared helpers.

Where a print formats an integer, the trace holds events instead of strings.
`Observer.Reading(viewer, name, temp)` stands for `print(subject._name,
subject._temp)`. `Mediator.Sent` and `Mediator.Received` stand for
`"<msg> sent by <id>"` and `"<msg> received by <id>"`.

Points where the code differs from the usual form of a pattern, and the model follows the code:
- `set_memento` clears `vars(self)` and then updates it from the saved
  dictionary. A restore from a memento made by `create_memento` therefore never
  fails, and `SetMemento`, which only receives such mementos, has no error case.
- `ConcreteHandler1` tests `0 < request <= 10`, so a request of 0 is not
  handled.
- `DefaultHandler` is the only handler that always handles. A chain without one
  passes an out-of-range request on to its `None` successor, and calling
  `handle` on `None` raises `AttributeError`. `Handle` models that error.
- The driver comments at `designpatterns.py:408-409` say each observer prints on
  every temperature change. The `temp` setter never calls `notify`, so nothing
  is printed (see Findings).

## Model

| member | source | states |
|---|---|---|
| Factory.Speak | designpatterns.py:19-27 | A pet says "Woof!" iff it is a Dog, and "Meow!" iff it is a Cat |
| Factory.GetPet | designpatterns.py:29-34 | The lookup succeeds iff the key is "dog" or "cat". "dog" yields Dog("Hope") and "cat" yields Cat("Peace"). Any other key raises KeyError carrying that key, never a default |
| Factory.SpeechOfKey | designpatterns.py:15-34 | A looked-up pet says "Woof!" iff the key was "dog", and says "Meow!" iff the key was "cat" |
| Factory.GetPetInjective | designpatterns.py:32-34 | Two recognised keys that yield the same pet are the same key |
| Decorator.Blink | designpatterns.py:180 | The decorated result is "<blink>", then the original result, then "</blink" (no final '>'), with the lengths adding up |
| Decorator.MakeBlink | designpatterns.py:177-181 | Stripping prefix and suffix from what the wrapped function returns gives back exactly what the original function returns |
| Decorator.UnblinkBlink | designpatterns.py:180 | Unwrapping undoes wrapping. A string unwraps to s iff it is the wrapping of s, so the original appears once, between prefix and suffix |
| Decorator.MakeBlinkComposes | designpatterns.py:177-181 | Decorating an already decorated function still forwards to the root function: two unwraps recover its result |
| Decorator.HelloWorldBlinks | designpatterns.py:183-188 | HelloWorld returns "Hello World". The decorated hello_world returns "<blink>Hello World</blink" |
| Composite.Trace | designpatterns.py:285-304 | component_function prints the node's own name first, and the trace is never empty |
| Composite.TraceLength | designpatterns.py:285-304 | The trace is exactly as long as the tree has nodes, one line per node |
| Composite.ForestTraceLength | designpatterns.py:301-304 | ForestTrace models the loop over the children. Running a list of children prints one line per node in those subtrees |
| Composite.ForestTraceConcat | designpatterns.py:303-304 | Running two lists of children one after the other prints the first list's names, then the second's, and the node counts add |
| Composite.ForestTraceSplit | designpatterns.py:303-304 | Each child's full trace appears as one contiguous block, between the blocks of the children before it and after it |
| Composite.AppendChild | designpatterns.py:295-296 | Appending a child keeps the node's name and puts the child at the end of the child list. The new trace is the old trace followed by the child's trace, and the node count grows by the child's size |
| Composite.RemoveChild | designpatterns.py:298-299 | Removal succeeds iff the child is present; otherwise it raises ValueError. Exactly the first equal child is dropped, the other children keep their order, and one occurrence leaves the multiset |
| Composite.RemoveChildTrace | designpatterns.py:298-304 | Removing a child deletes exactly that child's block from the trace. The names before and after the block keep their order |
| Composite.AppendThenRemove | designpatterns.py:295-299 | Appending a child the node did not have and then removing it gives back the original node |
| Composite.DriverTrace | designpatterns.py:306-312 | The driver prints "submenu1", "sub_submenu 11", "sub_submenu 12" |
| Observer.NewCore | designpatterns.py:382-385 | A new Core has the given name, temperature 0 and no observers |
| Observer.Attach | designpatterns.py:364-366 | Attaching an observer that is already present leaves the subject unchanged; a new observer is appended at the end. The set of attached observers gains exactly that observer, and the list stays duplicate-free |
| Observer.AttachIdempotent | designpatterns.py:364-366 | Attaching the same observer twice equals attaching it once |
| Observer.Notified | designpatterns.py:374-377 | notify updates only attached observers, never the modifier, and at most one per list entry |
| Observer.Notify | designpatterns.py:374-377 | Every reading carries the subject's current name and temperature. An observer reads iff it is attached and is not the modifier, and on a duplicate-free list no observer reads twice |
| Observer.NotifiedMembership | designpatterns.py:374-377 | An observer is updated iff it is attached and differs from the modifier (None differs from every observer) |
| Observer.NotifiedConcat | designpatterns.py:375-377 | Observers are updated in attachment order: notifying a split list updates the first part's observers before the second part's |
| Observer.NotifiedAll | designpatterns.py:374-377 | With no modifier, every attached observer is updated, in attachment order |
| Observer.NotifiedOnce | designpatterns.py:364-377 | On a duplicate-free list each observer is updated at most once. Exactly all observers are updated, or all but one when the modifier is attached |
| Observer.SetTempAsWritten | designpatterns.py:391-393 | As written, the temp setter stores the new temperature and notifies nobody |
| Observer.SetTemp | designpatterns.py:391-393 | The corrected setter stores the new temperature, and every attached observer, in order, reads that new temperature |
| Observer.SetTempNotifiesEach | designpatterns.py:374-393 | After the corrected setter, the i-th attached observer receives exactly one reading, carrying the subject's name and the new temperature |
| Observer.DriverAsWrittenSilent | designpatterns.py:402-409 | As written, the driver prints nothing on either temperature change, although two viewers are attached |
| Observer.DriverCorrected | designpatterns.py:402-409 | With the corrected setter, the driver prints v1 and v2 at 80, then v1 and v2 at 90 |
| Chain.Handle | designpatterns.py:497-515 | A handled request prints exactly one line, "Request processed" or "End of chain.". "Request processed" means the request is in (0, 10]. Running off the end raises AttributeError and happens only in a chain without a DefaultHandler |
| Chain.HandleClosedForm | designpatterns.py:497-515 | On any chain: a ConcreteHandler1 processes an in-range request whatever its successor is. Otherwise the request gets its successor's result, so it ends at the first DefaultHandler, which prints "End of chain.", or raises AttributeError when the chain has none |
| Chain.NeverFallsThrough | designpatterns.py:497-519 | A chain that ends in a DefaultHandler handles every request. A chain that does not fails on every out-of-range request |
| Chain.HandledByRange | designpatterns.py:505-515 | InRange is the test at line 508. In a chain that starts with ConcreteHandler1 and ends in a DefaultHandler, a request is processed iff 0 < request <= 10, and reaches "End of chain." otherwise |
| Chain.Delegate | designpatterns.py:521-523 | delegate raises nothing iff every request is handled, and then prints one line per request. Otherwise it stops at the first failing request, having printed the lines of all requests before it. The i-th printed line is the i-th request's handling |
| Chain.ClientDelegate | designpatterns.py:517-523 | The client's chain never raises. It prints one line per request: "Request processed" exactly for in-range requests, "End of chain." for the rest |
| Chain.DriverDelegate | designpatterns.py:526-528 | delegate([2, 5, 30]) prints "Request processed", "Request processed", "End of chain." |
| Command.Execute | designpatterns.py:576-587 | Each command prints its own word, and no other command prints that word: "Copying" iff Copy, "Pasting" iff Paste, "Saving" iff Save |
| Command.Parse | designpatterns.py:576-587 | Each printed word identifies the one command that prints it |
| Command.Add | designpatterns.py:593-594 | add keeps the queued commands and puts the new one at the back |
| Command.Lines | designpatterns.py:596-598 | Executing a list of commands prints one line per command, and the i-th line is the i-th command's word |
| Command.Run | designpatterns.py:596-598 | run prints one line per queued command, and the i-th line reads back as the i-th queued command |
| Command.RunAdd | designpatterns.py:593-598 | A command added to the macro is run after all earlier ones |
| Command.ReplayRun | designpatterns.py:593-598 | The run trace reads back as exactly the queue, and any trace that reads back as a queue is that queue's run. Execution order is addition order, with nothing dropped, repeated or reordered |
| Command.DriverRun | designpatterns.py:601-605 | Adding Copy, Paste and Save and running prints "Copying", "Pasting", "Saving" |
| Mediator.Add | designpatterns.py:650-651 | add keeps the registered colleagues and puts the new one at the end |
| Mediator.DeliverTo | designpatterns.py:653-656 | Every delivery is a receipt of the message by a colleague whose id differs from the sender's |
| Mediator.Distribute | designpatterns.py:653-656 | The sender's id never receives. A colleague id receives iff it is registered and differs from the sender's. Receipts plus the registered colleagues that share the sender's id make up all registered colleagues |
| Mediator.Send | designpatterns.py:630-632 | send first announces the message as sent by the sender. Everything after that is exactly the mediator's distribution: a colleague id receives iff it is registered and differs from the sender's |
| Mediator.DeliverMembership | designpatterns.py:653-656 | Colleague id receives the message iff it is in the list and differs from the sender's id |
| Mediator.DeliverCount | designpatterns.py:653-656 | The number of receipts is the number of colleagues minus those sharing the sender's id |
| Mediator.DeliverConcat | designpatterns.py:654-656 | Receipts come in registration order: a split list delivers to the first part before the second |
| Mediator.DistributeToAllOthers | designpatterns.py:653-656 | With distinct ids and a registered sender, exactly the other colleagues receive, one receipt each |
| Mediator.DriverSend | designpatterns.py:659-666 | With colleagues 1, 2 and 3, colleague 1's "Good morning" is sent by 1, then received by 2, then by 3 |
| Memento.NewOriginator | designpatterns.py:678-679 | A new originator has exactly one attribute, _state, holding None |
| Memento.SetAttr | designpatterns.py:692 | Assigning an attribute sets that attribute and leaves the others unchanged |
| Memento.CreateMemento | designpatterns.py:681-682 | The snapshot holds exactly the originator's attributes with their current values |
| Memento.Update | designpatterns.py:687 | dict.update: the keys are the union; the updating dict's values win, and other keys keep theirs |
| Memento.SetMemento | designpatterns.py:684-687 | After restore, the attributes are exactly the saved ones, with the saved values. Nothing of the current state survives |
| Memento.RestoreSnapshot | designpatterns.py:681-687 | Restoring a snapshot reproduces the originator as it was at snapshot time, whatever state it reached in between |
| Memento.RestoreIdempotent | designpatterns.py:681-687 | Restoring right after snapshotting changes nothing |
| Memento.RestoreDropsNewAttrs | designpatterns.py:684-687 | An attribute added after the snapshot is gone after the restore, so the restore is never a partial overlay |
| Memento.DriverRestore | designpatterns.py:690-693 | Snapshotting with _state None, setting it to True and restoring gives _state None |

## Findings

| source | as written | input that shows it | evidently intended | confidence | as-written member | corrected member |
|---|---|---|---|---|---|---|
| designpatterns.py:391-393 | The `temp` setter stores `_temp` and returns. It never calls `notify`. | `Core("Core 1")` with viewers v1 and v2 attached, then `c1.temp = 80`: nothing is printed | The setter calls `self.notify()`, so each attached viewer prints "Core 1 80". The driver comments at lines 408-409 say so, and so does the Observer pattern | high; not executed | Observer.SetTempAsWritten (exhibited by Observer.DriverAsWrittenSilent) | Observer.SetTemp (proved by Observer.SetTempNotifiesEach and Observer.DriverCorrected) |

## Left out

- Printing: every `print` becomes a returned trace; there is no I/O.
- Integer formatting in Observer and Mediator: these prints become events, not strings. No int-to-text conversion is modelled.
- Builder (designpatterns.py:95-136): it uses `self.builder` where it set `self._builder`, and the driver calls `construct_car` where the method is `constructor_car`. The snippet cannot run.
- Prototype (designpatterns.py:146-169): `register_object` writes `self._objects`, but the constructor sets `self.objects`. The snippet cannot run.
- Proxy (designpatterns.py:205-221): `produce` reads the misspelt `self.occupried`, so it cannot run.
- Strategy (designpatterns.py:464-484): the default `execute` is nested inside `__init__`, so it is never a method.
- Visitor (designpatterns.py:443-447): the driver passes the class `Electrician` where an instance is needed.
- Abstract Factory (designpatterns.py:53-75): `PetStore.show_pet` computes a pet and returns nothing, so there is no behaviour to state.
- Subject.detach (designpatterns.py:368-372): it refers to the nonexistent `self._observer`. The resulting AttributeError is not caught by the `except ValueError`.
- Adapter (designpatterns.py:247-263): it forwards through `__dict__.update` and `__getattr__`. That is Python reflection, not logic that can be stated.
- Bridge (designpatterns.py:321-347): `scale` multiplies floats, and `draw` only delegates a print.
- Facade (designpatterns.py:549-562): a fixed sequence of four prints with no logic.
- Singleton and Iterator (designpatterns.py:77-82, 449-453): they are comments only, with no code.
- Memento serialisation: `pickle.dumps`/`loads` is not modelled. A memento is a value copy of the attribute dictionary.
- Memento attribute values: the model's `PyValue` covers None, bool, int and str. The driver stores only None (designpatterns.py:679) and True (designpatterns.py:692). Other Python values (lists, objects, floats) are not modelled.
- Memento restore from foreign bytes: `set_memento` accepts any bytes, but the model's `Memento` is always a saved dictionary. Bytes that are not a pickle make `pickle.loads` (designpatterns.py:685) raise. A pickled non-mapping, such as `pickle.dumps(5)`, passes line 685, runs `vars(self).clear()` at line 686, and only then raises TypeError in `update` at line 687. The originator is left with no attributes. None of these failures, including that half-applied restore, is modelled.
- Factory: the later `Dog` class (designpatterns.py:49-51) replaces the first one after the driver's `get_pet("dog")` call at line 37. A `get_pet` call after that point would fail with TypeError. The model uses the `Dog` in force at line 37.
- Object identity in Composite: `list.remove` compares children with `==`, which for these classes is object identity. The model compares tree values, so two distinct but structurally equal children cannot be told apart.
- Aliasing in Composite: Python's child list holds the child object, but the model's `AppendChild` stores the child's value at the time of the append. A child changed after it was appended is not seen by its parent in the model. For example, after `root.append_child(sub)` and then `sub.append_child(Child("x"))`, Python's `root.component_function()` prints x, but the model's `Trace` of the root does not contain it. Likewise, one object appended under several parents and then changed stays unchanged under each of them in the model.
- Object identity in Observer is modelled exactly: observers are opaque references (`ObserverRef`).
- Abstract base classes (`Component`, `Command`, `Handler`, `Colleague`, `Mediator`): they are never instantiated by the drivers. Calling the abstract `Handler._handle`, which raises NotImplementedError, is not modelled.
- Colleague's `_mediator` back-reference: the mediator is passed to `Send` explicitly instead.
