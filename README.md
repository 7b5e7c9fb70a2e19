# prime_detector, modelled in Dafny

`prime_detector` is a small browser utility. It watches the user's text selection and decides whether the selection sits in a particular way against the surrounding characters. The character just before the selection and the character at its end offset must be token characters. The characters one step further out must be separators or the edge of the text. When a debounce period passes with no further selection change and the selection has this shape, the utility dispatches a custom DOM event.

This project models the detection core of `index.js` and proves properties of it:

- `terminal.dfy` (module `Terminal`) models `is_terminal_char`, the table of separator code points. `undefined` counts as a separator.
- `selection.dfy` (module `Selection`) models `get_selection`, which turns the browser's anchor and focus points into a start/end span or nothing.
- `detector.dfy` (module `Detector`) models `contains` and `detect_prime`, the four-probe test.
- `debounce.dfy` (module `Debounce`) models `create_debouncer` two ways. A pure state machine, `Timers`, holds the closure variable `timer_id`, the host's table of scheduled timers and a count of action runs. The class `Debouncer` has methods that are proved to follow that state machine.
- `options.dfy` holds `Option`, which stands for JavaScript's `undefined`/`null`.

The browser APIs are passed in as oracles rather than re-implemented. `Detector.Dom` bundles three of them:

- `textContent`, as a function from node to an optional sequence of UTF-16 code units (what selection offsets count);
- `compareDocumentPosition`, as a function returning an `int`;
- `Node.contains`, as a relation.

Nodes are opaque ids. `window.getSelection()` is an `Option<RawSelection>`.

`String.prototype.codePointAt(i)` is modelled by `Detector.CodePointAt`. It gives nothing when the index is out of range. A lead surrogate followed by a trail surrogate decodes to the supplementary code point they encode. Any other code unit, a lone surrogate included, comes back unchanged. `Terminal.IsTerminalChar` proves that every separator lies in the Basic Multilingual Plane and outside the surrogate range. Because of that, `Detector.ProbeClassifiesByCodeUnit` proves that classifying the code point at an offset gives the same answer as classifying the code unit there.

Selecting exactly `world` in `Hello, "world" is here` is not detected: the character before it is `"`, a separator, so `index.js:131` returns false. Selecting `b c` in `ab cd` is detected. `Detector.QuotedWordRejected`, `Detector.InnerWordDetected` and `Detector.CrossingSelectionDetected` state what the code does on these inputs.

## Model

| member | source | states |
|---|---|---|
| `Terminal.IsTerminalChar` | index.js:159-211 | true exactly for an absent value or one of the 45 listed code points (white space 0x09-0x0D, 0x20, 0xA0, 0x1680, 0x2000-0x200A, 0x2028, 0x2029, 0x202F, 0x205F, 0x3000, 0xFEFF; punctuation `!"'(),.:;?[]` and backquote, `{}`, 0xB4, curly quotes 0x2018/0x2019/0x201C/0x201D); every separator is a BMP non-surrogate code point |
| `Terminal.AsciiAlphanumericNotTerminal` | index.js:208-209 | ASCII letters and digits are never separators |
| `Selection.GetSelection` | index.js:44-87 | no selection or a missing endpoint gives none; on one node, a span exactly when the offsets differ, with start == end, start offset < end offset and the offsets being {anchor, focus}; across nodes, a span exactly when the order is exactly 4 (anchor first) or exactly 2 (focus first), and none for any other value such as a combined bitmask |
| `Selection.SwapGivesSameSpan` | index.js:54-80 | dragging the other way gives the same span: always within one node, and across nodes whenever document order is answered consistently in both directions |
| `Selection.SameNodeSpanIsOrdered` | index.js:54-79 | a same-node selection with distinct offsets normalises to start = the smaller offset and end = the larger offset |
| `Detector.Contains` | index.js:95-100 | a target equal to both endpoints contains the span whatever `Node.contains` answers; when the oracle is inclusive at the target, the result is exactly "the target contains both endpoints" |
| `Detector.CodePointAt` | index.js:120 | `textContent?.codePointAt(i)` is present exactly for a non-null text and an in-range index; a code unit that is not a lead surrogate is returned as it is; a lead/trail surrogate pair decodes to a code point in U+10000..U+10FFFF |
| `Detector.ProbeClassifiesByCodeUnit` | index.js:127-145 | every probe classifies the code point at an offset exactly as it would the code unit there |
| `Detector.RejectedUpFront` | index.js:110-116 | a missing endpoint is rejected up front; a selection that passes the guard has a span with start offset at least 1 lying inside the target, if one is given |
| `Detector.DetectPrime` | index.js:107-152 | when true, the selection normalised, the start offset is at least 1, and the start text and the end text exist and hold the characters at start offset - 1 and at end offset |
| `Detector.DetectPrimeCharacterised` | index.js:107-152 | true iff the span exists, lies in the target (if one is given) and both texts exist, and the following hold: the start offset is >= 1 and the character before it is a non-separator; the character two before is a separator or the text's start; the character at the end offset exists and is a non-separator; the one after it is a separator or the text's end |
| `Detector.RejectedWithoutProbing` | index.js:110-116 | no span, a span starting at offset 0, or a span outside the target gives false whatever the texts are |
| `Detector.CollapsedNeverDetected` | index.js:48-57 | a missing or zero-width selection is never detected |
| `Detector.QuotedWordRejected` | index.js:127-133 | selecting exactly `world` in `Hello, "world" is here` is not detected |
| `Detector.InnerWordDetected` | index.js:118-151 | selecting `orl` in the same text is detected, in both drag directions |
| `Detector.CrossingSelectionDetected` | index.js:118-151 | selecting `b c` in `ab cd` is detected |
| `Detector.AstralPrefixProbedByCodeUnit` | index.js:118-124 | after U+1F600 (two code units) offsets count code units: probing offset 1 reads a lone trail surrogate, a non-separator, so selection 3..4 is rejected, while 4..5 is detected |
| `Debounce.Initial` | index.js:26-27 | before any update no timer is remembered or scheduled and the action has not run |
| `Debounce.AfterUpdate` | index.js:30-36 | update remembers a fresh timer id, does not run the action, and (from a well-formed state) leaves exactly that timer scheduled |
| `Debounce.AfterElapse` | index.js:35 | a timer elapsing runs the action once if it is still scheduled and never otherwise; the remembered id is kept |
| `Debounce.Run` | index.js:29-37 | any sequence of updates and elapsing timers keeps the state well formed: only the remembered timer can be scheduled |
| `Debounce.AtMostOnePending` | index.js:30-35 | after any sequence of events at most one timer is scheduled |
| `Debounce.BurstLeavesLastPending` | index.js:30-35 | a burst of n >= 1 updates does not run the action and leaves only the last of the n fresh timers scheduled |
| `Debounce.ExpiriesRunPendingOnce` | index.js:35 | with one timer pending, elapsing any list of timers runs the action once if that timer is in the list, else never |
| `Debounce.ExpiriesRunNothing` | index.js:31-33 | with nothing pending (every earlier timer cleared or fired), elapsing timers changes nothing |
| `Debounce.BurstRunsActionOnceIffLastElapses` | index.js:25-38 | after a burst of updates, elapsing any timers runs the action exactly once if the last timer elapses and not at all otherwise |
| `Debounce.Debouncer.constructor` | index.js:25-27 | a new debouncer remembers no timer and has none scheduled |
| `Debounce.Debouncer.ClearTimeout` | index.js:32 | the host's `clearTimeout` removes exactly that id from the scheduled timers |
| `Debounce.Debouncer.SetTimeout` | index.js:35 | the host's `setTimeout` schedules one timer under a fresh id and returns that id |
| `Debounce.Debouncer.Update` | index.js:30-36 | the object's new state is `AfterUpdate` of its old state; exactly the new timer is scheduled and the action did not run |
| `Debounce.Debouncer.Elapse` | index.js:35 | the object's new state is `AfterElapse` of its old state; the action ran iff the timer was still scheduled |

## Left out

- `init_listener` and `remove_listener` (index.js:218-248) are not modelled. They register and remove DOM event listeners, build a `CustomEvent` and read the `window` global, which is all host plumbing. Their option defaults are a debounce of 1000, the event name `"brazil-mentioned"` and a target of `window`. The stop handle removes a listener registered under the configured event name, but the listener was added under `"selectionchange"` (index.js:232 and 236). So the model makes no claim that stopping halts detection.
- The debounce `timeout` is kept as a constant but not interpreted. Wall-clock time and the event loop are not modelled: a timer elapsing is an explicit `Elapse` step, and the action is represented only by a count of its runs.
- `setTimeout` and `clearTimeout` are modelled as a table of scheduled timer ids that hands out increasing ids. Real host ids may be reused after a timer fires; the model never reuses one.
- `window.getSelection`, `compareDocumentPosition`, `Node.contains` and `textContent` are inputs. Their browser behaviour, such as tree structure and document order, is not modelled.
