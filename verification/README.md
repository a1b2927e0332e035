# Item service model

A Dafny model of a small in-memory item service. It has two HTTP handlers
over one shared, append-only list of items:

- **create** validates a body against the item schema. It appends the body to
  the list only when validation succeeds, and answers with a response
  envelope.
- **list** walks the list in order and re-validates each record against the
  read schema. It silently drops the records that fail, and answers with the
  rest.

An item is a `uuid` plus a `message`. The schema (`Items.ValidItem`) accepts an
item when:

- the uuid is a version-4 UUID in canonical text form (`Items.IsUuid4`): 36
  characters in 8-4-4-4-12 hexadecimal groups, the version digit `4`, and the
  RFC 4122 variant digit `8`, `9`, `a` or `b` (section 4.4 of RFC 4122). The
  check is case-insensitive: upper-case hexadecimal digits, including a variant
  digit `A` or `B`, are accepted too;
- the message has between 10 and 255 characters, both inclusive.

The create schema and the read schema are declared identically in the two
handler files, so the model defines the schema once.

The envelope (`CustomResponse.Envelope`) has three fields: `message`,
`isSuccess` and `data`. It comes with the initialiser and the two factories
`success` and `error`, each keeping its Python default arguments as Dafny
default parameters. The model keeps one quirk of the source: a rejected body
is answered through `success`. Its envelope therefore carries
`isSuccess == true`, the cut validation message and no data.

The shared list is the class `Items.ItemList`, which has a `seq<Item>` field.
Its invariant `AllValid` says that every stored item passes the schema.
`CreateItem` changes the list in place and keeps that invariant. `GetAll`
builds its output in a loop and has no `modifies` clause, so it cannot change
the list. The loop is proved equal to the pure function `Filter`, and the
listing properties are proved as lemmas about `Filter`.

Modules: `Wrappers` (Option), `CustomResponse`, `Items`, `CreateItemHandler`,
`GetAllHandler`, and `Scenarios`. `Scenarios` holds create scenarios on an
empty list, plus listing facts about any list.

Two consequences of the code are worth stating:

- Only version-4 UUIDs are accepted, not every well-formed UUID
  (`Items.OnlyVersion4`).
- A failure reply can carry an empty message. This happens when the first
  validation message starts with a comma (`CreateItemHandler.EmptyFailureText`).

## Model

| member | source | states |
|---|---|---|
| CustomResponse.New | src/app/shared/domain/custom_response.py:2-5 | the initialiser stores message, success flag and data unchanged |
| CustomResponse.Success | src/app/shared/domain/custom_response.py:7-13 | `success` passes message, flag and data through unchanged, so `success(..., success=false)` reports failure |
| CustomResponse.Error | src/app/shared/domain/custom_response.py:15-21 | `error` always gives `isSuccess == false` and no data, with the given message |
| CustomResponse.Defaults | src/app/shared/domain/custom_response.py:2-21 | with no arguments: the initialiser gives ("", true, none), `success` gives ("Success", true, none), `error` gives ("Error", false, none) |
| CustomResponse.SuccessVersusError | src/app/shared/domain/custom_response.py:8-21 | a `success` envelope equals the `error` envelope with the same message exactly when its flag is false and it has no data |
| Items.MessageBounds | src/app/create_item/create_item.py:11 | the message length bounds are inclusive: 10 and 255 characters are accepted, 9 and 256 rejected (the same schema is redeclared at src/app/get_all/get_all.py:11) |
| Items.OnlyVersion4 | src/app/create_item/create_item.py:10 | the test's version-4 UUID is accepted; the same UUID with version digit 1, or with variant digit c, is rejected, as is a non-UUID string (same schema at src/app/get_all/get_all.py:10) |
| Items.ItemList.constructor | src/app/create_item/create_item.py:6 | the shared list starts empty, which satisfies the all-valid invariant |
| Items.ItemList.Append | src/app/create_item/create_item.py:24 | appending grows the list by exactly one at the end and leaves every earlier element as it was |
| CreateItemHandler.BeforeFirstComma | src/app/create_item/create_item.py:36 | the result is a prefix of the input, contains no comma, and is followed in the input by a comma unless it is the whole input |
| CreateItemHandler.BeforeFirstCommaUnique | src/app/create_item/create_item.py:36 | those three properties determine the result: any string that has them is the result |
| CreateItemHandler.FailureText | src/app/create_item/create_item.py:33-36 | no messages gives "Something went wrong"; otherwise the text is the first message up to, not including, its first comma |
| CreateItemHandler.EmptyFailureText | src/app/create_item/create_item.py:36 | whenever the first message starts with a comma, the reply text is empty |
| CreateItemHandler.CreateItem | src/app/create_item/create_item.py:17-37 | a valid body is appended as the new last element and echoed as ("Item created successfully", true, body); an invalid body leaves the list unchanged and gets (failure text, true, none); the all-valid invariant is preserved |
| GetAllHandler.Filter | src/app/get_all/get_all.py:21-27 | the output is no longer than the list and holds exactly the listed items that pass the read schema |
| GetAllHandler.FilterAppend | src/app/get_all/get_all.py:21-27 | filtering a concatenation is the concatenation of the filtered parts |
| GetAllHandler.FilterIsSubsequence | src/app/get_all/get_all.py:22-24 | the output keeps store order: increasing positions in the list map onto the output |
| GetAllHandler.FilterCount | src/app/get_all/get_all.py:22-27 | each valid item occurs in the output as often as in the list; an invalid item never occurs |
| GetAllHandler.FilterOfValid | src/app/get_all/get_all.py:22-24 | when every stored item is valid the output is the whole list |
| GetAllHandler.FilterIdempotent | src/app/get_all/get_all.py:22-24 | re-validating an output removes nothing |
| GetAllHandler.GetAll | src/app/get_all/get_all.py:17-32 | the loop returns ("Items retrieved successfully", true, the filtered list); under the all-valid invariant the data is the whole list |
| Scenarios.CreateValidExample | tests/acceptance/test_create_item.py:10-26 | creating the valid body of the acceptance test tests/acceptance/test_create_item.py stores it and answers "Item created successfully", true, with the same uuid and message |
| Scenarios.CreateInvalidExample | src/app/create_item/create_item.py:32-37 | the body ("not-a-uuid", "short") is not stored and is answered with `isSuccess == true`, no data and the failure text |
| Scenarios.CreateThenList | src/app/get_all/get_all.py:21-27 | creating valid A then valid B on a fresh list and then listing gives [A, B] |
| Scenarios.ListTwice | src/app/get_all/get_all.py:21-32 | two list requests with no create between them give identical replies |
| Scenarios.InvalidItemIsHidden | src/app/get_all/get_all.py:23-27 | an item that entered the list without passing the schema, at any position, is dropped from the listing and the items before and after it are listed as if it were absent |

## Left out

- HTTP routing, status codes and application setup are not modelled. They are wiring with no logic.
- Reading and parsing the JSON request body is not modelled. The body is
  given as an `Item`. Failures that are not validation errors are left out
  too, such as a body that is not an object.
- The validation library's exact error messages are not modelled. The
  messages it reports for a rejected body are a parameter (`errors`) of
  `CreateItem`.
- The validation library also accepts other UUID spellings: braces, a
  `urn:uuid:` prefix, no hyphens. These are not modelled; `IsUuid4` accepts
  only the canonical hyphenated form.
- The validation library re-renders an accepted uuid in lower case. The model
  stores and echoes the uuid text exactly as submitted. The two agree for
  lower-case input, which is what the test uses.
- The outer `except ValidationError` of the list handler (src/app/get_all/get_all.py:33-38) is not modelled. Nothing in its `try` block can raise that exception after the inner catch.
- The module that defines the shared list is not part of this model. The list
  is the `items` field of `Items.ItemList`. The model assumes that the list
  starts empty (`Items.ItemList.constructor`), and every create scenario
  relies on that.
- Concurrent requests are not modelled, and neither are the asynchronous
  handlers. Each request is modelled as one sequential method call.
