# A Dafny model of the schema, CSV and loader core

The repository loads CSV exports (campaigns, ad groups, search terms) into a
database and declares serialisation schemas. This project models its pure and
stateful core and proves properties of it:

- **`core/schema.py`** (module `Schema`, examples in `SchemaExamples`). It covers
  two things. The first is the `Field` descriptor. The second is what
  `MetaSchema.__new__` does when a schema class is defined:
  - it collects the class attributes that are `Field`s;
  - it pops them from the namespace;
  - it merges the `_fields` plans found while walking the class's MRO;
  - it lets the local declarations overwrite the inherited ones;
  - it derives `_processed_fields`.

  A Python `dict` is modelled by module `OrderedDict` as an insertion-ordered
  key list plus a map. Assigning to a key that is already present keeps its
  position. `dict.update` assigns key by key.
- **`core/dataframe.py`** (module `DataFrame`, examples in `DataFrameExample`).
  The file is given as the successive results of `readline()`. `readfile` is a
  class `LineReader` with a cursor. `_data` is `RowIterator`, `CSVFrame` is
  `CSVFrame`, and the `data` property is `CSVLoader.Data`. Functions `Lines`,
  `Header` and `Rows` state what these generators yield. `str.strip` and
  `str.split(",")` are modelled exactly.
- **`core/utils.py`** (module `Utils`). It covers `iter_to_str` and its round
  trip with the `split(",")` of `core/dataframe.py`.
- **`loader/dataloader.py`** (module `DataLoader`, examples in
  `DataLoaderExample`).
  - `get_data` is `dict(zip(headers, row))` per row.
  - `save_data` is a loop that saves one model per record into an abstract
    model manager, `Manager`.

## Model

| member | source | states |
|---|---|---|
| Schema.DefaultField | core/schema.py:17-19 | `Field()` has no name, no label and is required |
| Schema.FromNative | core/schema.py:21-26 | `from_native` returns its argument unchanged, for every value |
| Schema.Getter | core/schema.py:28-33 | `getter` returns `None` for every field name |
| Schema.BaseSchemaClass | core/schema.py:36-37 | `BaseSchema` is a schema class that owns an empty `_fields` |
| Schema.DeclaredIn | core/schema.py:51-53 | the collected plan holds exactly the names bound to `Field` values, each mapped to the descriptor it was bound to |
| Schema.DeclaredInKeys | core/schema.py:51-53 | with distinct attribute names, the plan lists the `Field` names in class-body order |
| Schema.Declared | core/schema.py:51-53 | the local plan of a class body: exactly its `Field` attributes, with their descriptors, in body order |
| Schema.CollectFields | core/schema.py:51-53 | the collecting loop builds exactly the local plan `Declared(attrs)` |
| Schema.RemoveAll | core/schema.py:55-56 | popping a list of distinct present keys leaves exactly the other keys, with their values, in their original order (`Keep`) |
| OrderedDict.Keep | core/schema.py:55-56 | the filtered list holds exactly the entries of the list that are not among the removed names |
| Schema.PopFields | core/schema.py:55-56 | the popping loop leaves the namespace with every collected name removed |
| Schema.NamespaceWithoutFields | core/schema.py:51-57 | after the pops the namespace holds no `Field`, and every non-`Field` attribute keeps its value |
| Schema.Resolve | core/schema.py:65 | `cls._fields` is the plan of the nearest class at or after `cls` in the MRO that owns one |
| Schema.FullMro | core/schema.py:59-63 | the MRO of the new class is the class, owning no `_fields` yet, followed by its ancestors |
| Schema.Walk | core/schema.py:63-65 | the repeated `fields.update(cls._fields)` over the schema classes of an MRO yields a valid plan |
| Schema.LeafFirst | core/schema.py:63 | `__mro__[::1]` visits the classes at positions 0 to n-1, the class itself first |
| Schema.RootFirst | core/schema.py:63 | `__mro__[::-1]` visits the classes at positions n-1 down to 0, the root first |
| Schema.Inherited | core/schema.py:63-65 | the plan gathered by the leaf-first walk is a valid plan; `MergedKeys` and `MergedInheritedRootMost` state its keys and descriptors |
| Schema.InheritedFields | core/schema.py:63-65 | the loop over `__mro__[::1]` computes the leaf-first walk |
| Schema.Step | core/schema.py:64-65 | one update adds the keys the visited schema class holds, takes its descriptors for them, and keeps every other key |
| Schema.WalkKeys | core/schema.py:63-65 | after the walk a key is present iff it was present before or some visited schema class holds it |
| Schema.WalkLastWins | core/schema.py:63-65 | the descriptor kept for a key is that of the last visited schema class holding it |
| Schema.WalkNoHolder | core/schema.py:63-65 | a key no visited class holds keeps its descriptor |
| Schema.ResolvesEmpty | core/schema.py:65 | when every class owning `_fields` owns an empty one, every class resolves `_fields` to the empty plan |
| Schema.WalkEmptyPlans | core/schema.py:63-65 | visiting only classes with empty `_fields` changes nothing |
| Schema.MergedKeys | core/schema.py:63-67 | the merged plan has unique keys, and holds a key iff the class declares it or some schema class of the MRO holds it |
| Schema.Merged | core/schema.py:63-67 | `fields` after the local update is a valid plan; `MergedKeys`, `MergedLocal` and `MergedInheritedRootMost` state its contents and order |
| Schema.MergedLocal | core/schema.py:67 | a declared key maps to its local descriptor; inherited keys keep their positions and new local keys are appended in declaration order |
| Schema.MergedInheritedRootMost | core/schema.py:63-67 | as written, an inherited key not declared locally gets the descriptor of the root-most schema class in the MRO that holds it |
| Schema.MergedRootFirst | core/schema.py:63-67 | the merged plan with the MRO walked root first, as `__mro__[::-1]` would walk it |
| Schema.MergedRootFirstNearest | core/schema.py:63-67 | walking root first, an inherited key not declared locally gets the descriptor of the nearest schema class that holds it |
| Schema.Processed | core/schema.py:69-84 | one entry per plan key, in plan order: the descriptor; `label` or else the key as output key; `name` or else the key as accessor; the descriptor's `from_native` |
| Schema.MakeEntry | core/schema.py:70-75 | `getter` yields `None`, so the entry holds the field and its converter, the label as output key unless it is `None` or "" (then the attribute name), and `field.name` as accessor under the same rule |
| Schema.OrElse | core/schema.py:72-75 | `x or name` for an optional string: `None` and "" give the fallback, any other string gives itself |
| Schema.SchemaClass.constructor | core/schema.py:59 | the new class has the popped namespace, the given ancestors, and no `_fields` of its own |
| Schema.SchemaClass.Mro | core/schema.py:63 | `__mro__` is the class followed by its ancestors |
| Schema.SchemaClass.AsAncestor | core/schema.py:86-87 | as an ancestor of a later class, the class owns exactly the `_fields` it was given |
| Schema.NewSchemaClass | core/schema.py:47-89 | the new class has the namespace without its `Field`s; `_fields` is the merged plan and `_processed_fields` its entries, assigned only when the plan is non-empty |
| OrderedDict.Empty | core/schema.py:47-48 | `{}` is a valid dict with no keys |
| OrderedDict.Put | core/schema.py:53 | `d[k] = v` maps `k` to `v`; an existing key keeps its position and a new one is appended |
| OrderedDict.Update | core/schema.py:65-67 | `d.update(e)` gives a valid dict; `UpdateSpec` states its values and key order |
| OrderedDict.Remove | core/schema.py:56 | `pop(k)` removes `k` and keeps the order of the other keys |
| OrderedDict.PutAllVals | core/schema.py:65 | assigning a list of keys: later assignments win and unassigned keys keep their values |
| OrderedDict.PutAllKeys | core/schema.py:65 | assigning a list of distinct keys keeps the old keys in place and appends the new ones in order |
| OrderedDict.UpdateSpec | core/schema.py:65-67 | `d.update(e)` holds `e`'s value for each key of `e`, else `d`'s; `d`'s keys stay in place and `e`'s new keys follow in `e`'s order |
| OrderedDict.UpdateVals | core/schema.py:65-67 | the values after `d.update(e)` are `d`'s overridden by `e`'s |
| OrderedDict.UpdateKeys | core/schema.py:65-67 | the keys after `d.update(e)` are `d`'s followed by `e`'s new ones |
| OrderedDict.UpdateEmpty | core/schema.py:65 | updating with `{}`, or updating `{}`, gives the other dict |
| OrderedDict.UpdateSelf | core/schema.py:65 | `d.update(d)` leaves `d` unchanged |
| SchemaExamples.PlansValidExamples | tests/test_core/test_schema.py:30-41 | the plans and MROs of the test classes are well formed |
| SchemaExamples.DeclaredFoo | tests/test_core/test_schema.py:34-37 | `TestSchemaFoo` collects `field1`, `field2`, `field3` in order |
| SchemaExamples.DeclaredBar | tests/test_core/test_schema.py:39-41 | `TestSchemaBar` collects a fresh `field3` and `field4` |
| SchemaExamples.TestSchemaHasNoFields | tests/test_core/test_schema.py:31-32 | `TestSchema` declares no field and gets an empty plan, so it keeps `BaseSchema`'s `_fields` |
| SchemaExamples.FooInherits | tests/test_core/test_schema.py:34 | `TestSchemaFoo` inherits an empty plan |
| SchemaExamples.FooExample | tests/test_core/test_schema.py:61-63 | `TestSchemaFoo._fields` is its three declared fields |
| SchemaExamples.FooProcessedExample | tests/test_core/test_schema.py:75-81 | `TestSchemaFoo`'s processed entries carry `field1`/"field", `field2`/"field2" and `field3`/"field3", in order |
| SchemaExamples.BarInherits | tests/test_core/test_schema.py:39 | `TestSchemaBar` inherits exactly `TestSchemaFoo`'s plan |
| SchemaExamples.BarExample | tests/test_core/test_schema.py:65-73 | `TestSchemaBar._fields` is `field1`, `field2`, a default `field3`, then `field4` |
| SchemaExamples.GrandchildRevertsRedeclaration | core/schema.py:63-65 | a grandchild with no fields gets `TestSchemaFoo`'s `field3` back under the leaf-first walk, but `TestSchemaBar`'s under the root-first one |
| DataFrame.Strip | core/dataframe.py:29 | the stripped line has no white space at either end |
| DataFrame.IsSpace | core/dataframe.py:29 | the white space `str.strip` removes includes space, tab, newline and carriage return, and never the comma |
| DataFrame.StripSlice | core/dataframe.py:29 | `strip` only removes white space at the two ends: the result is a slice with only white space around it |
| DataFrame.StripKeeps | core/dataframe.py:29 | a line with no white space at its ends is unchanged |
| DataFrame.StripNewline | core/dataframe.py:27-29 | a line read with its trailing newline strips back to the line |
| DataFrame.Split | core/dataframe.py:48 | a string with k commas splits into k+1 pieces, none containing a comma |
| DataFrame.SplitNoComma | core/dataframe.py:48 | a string without commas splits into itself |
| DataFrame.SplitFirstPiece | core/dataframe.py:48 | a comma-free piece followed by a comma splits off as the first piece |
| DataFrame.Lines | core/dataframe.py:27-30 | `readfile` yields the stripped reads in order, stopping exactly at the first empty read |
| DataFrame.Header | core/dataframe.py:41-42 | there is a header iff `readfile` yields a line, and it is the first stripped line split on "," |
| DataFrame.Rows | core/dataframe.py:44-50 | one row per line after the first, in order, each the stripped line split on ","; none for an empty file |
| DataFrame.LinesOfFile | core/dataframe.py:27-32 | when no read before the end is empty, every line is yielded, stripped, in file order |
| DataFrame.HeaderAndRows | core/dataframe.py:41-50 | the header is the first line split on ","; there is one row per later line, in order, split on "," with no trimming; no lines means no header and no rows |
| DataFrame.BlankLineRow | core/dataframe.py:28-30 | a blank line `"\n"` does not stop reading: it is yielded as "" and becomes the row [""] |
| DataFrame.EmptyFileHasNoHeader | core/dataframe.py:41 | an empty file has no header and no rows |
| DataFrame.LineReader.constructor | core/dataframe.py:25-27 | a new reader has all lines of the file still to yield |
| DataFrame.LineReader.Next | core/dataframe.py:27-32 | `next` yields the next remaining line and advances, or ends the iteration when none is left |
| DataFrame.RowIterator.Next | core/dataframe.py:44-50 | `next` yields the next remaining line split on ",", or ends when the lines end |
| DataFrame.CSVLoader.ReadFile | core/dataframe.py:20-32 | the generator yields exactly `Lines(raw)` |
| DataFrame.CSVLoader.Data | core/dataframe.py:34-52 | the header is `Header(raw)` (none for an empty file) and the row generator yields exactly `Rows(raw)` |
| DataFrame.CSVFrame.Next | core/dataframe.py:65-68 | `next` yields the rows in order and then stops |
| DataFrame.OpenFrame | core/dataframe.py:55-60 | the frame exists iff the file has a header; its headers are that header and it yields exactly `Rows(raw)` |
| DataFrameExample.ReadFileExample | tests/test_core/test_dataframe.py:12-22 | the test file yields "name,age", "Sam Jay, 20", "Fan Bill, 25" |
| DataFrameExample.DataExample | tests/test_core/test_dataframe.py:30-36 | the test file's header is ["name", "age"] and its rows keep the leading spaces " 20" and " 25" |
| DataFrameExample.SplitExamples | tests/test_core/test_dataframe.py:35-36 | the three test lines split as the test expects |
| Utils.IterToStr | core/utils.py:4-8 | the default delimiter is `DefaultDelimiter`, ","; no items give "", one item gives itself, and the length is the item lengths plus (n-1) delimiters |
| Utils.JoinLayout | core/utils.py:8 | every item appears in order at its offset, with exactly the delimiter between neighbours and nothing after the last |
| Utils.JoinSnoc | core/utils.py:8 | joining one more item appends the delimiter and that item |
| Utils.JoinSplit | core/utils.py:8 | splitting the ","-join of a non-empty list of comma-free items on "," gives the items back |
| Utils.EmptyJoinSplit | core/utils.py:8 | the empty list joins to "", which splits into [""]: the one list the round trip loses |
| Utils.SplitJoin | core/utils.py:8 | joining the pieces of `s.split(",")` with "," gives `s` back, for every string |
| DataLoader.ZipPrefix | loader/dataloader.py:51 | the dictionary built from the first n pairs of the zip is valid |
| DataLoader.Zip | loader/dataloader.py:51 | `dict(zip(headers, data))` is a valid dict; `ZipTruncates`, `ZipFirstPositions` and `ZipLastWins` state its keys, order and values |
| DataLoader.ZipTruncates | loader/dataloader.py:51 | a record holds exactly the headers below min(\|headers\|, \|row\|): extra cells are dropped and headers past the row are absent |
| DataLoader.ZipFirstPositions | loader/dataloader.py:51 | the keys of a record are the headers below the zip length, each listed once at the position of its first column |
| DataLoader.ZipLastWins | loader/dataloader.py:51 | each header maps to the cell of the last column carrying that header |
| DataLoader.ZipValuesFromRow | loader/dataloader.py:51 | every value of a record is one of the cells the zip took |
| DataLoader.ZipDistinct | loader/dataloader.py:49-51 | with distinct headers, the record lists the headers in order and maps `headers[i]` to `row[i]` |
| DataLoader.ZipAll | loader/dataloader.py:50-51 | one record per row, in order |
| DataLoader.Records | loader/dataloader.py:46-51 | `get_data` yields the zip of the header with each row, in order, and fails for an empty file |
| DataLoader.RecordsOfFile | loader/dataloader.py:46-51 | there is one record per data line, in file order, and its values are the split text of that line |
| DataLoader.Models | loader/dataloader.py:57 | one model per record, in record order |
| DataLoader.SavedModelsOfRecords | loader/dataloader.py:56-58 | the models saved for the rows are the models of the records of the rows |
| DataLoader.Manager.constructor | loader/dataloader.py:54 | a new manager has saved nothing |
| DataLoader.Manager.Save | loader/dataloader.py:58 | `save` appends the model to what was saved |
| DataLoader.SaveRows | loader/dataloader.py:56-58 | the loop consumes every remaining row and saves one model per row, in order |
| DataLoader.SaveData | loader/dataloader.py:53-58 | `save_data` saves exactly the models of the records, in record order, iff the file has a header; otherwise nothing is saved |
| DataLoaderExample.CampaignRecordCount | tests/test_loader/test_dataloader.py:14-25 | the campaign file gives nine records |
| DataLoaderExample.CampaignFirstRecord | tests/test_loader/test_dataloader.py:97-101 | the first campaign record maps "campaign_id", "structure_value" and "status" to the text cells "1578451881", "venum" and "ENABLED", in header order |
| DataLoaderExample.SplitTriple | core/dataframe.py:42 | three comma-free pieces joined by commas split back into the three |
| DataLoaderExample.ZipTriple | loader/dataloader.py:51 | three distinct headers zipped with three cells give those headers in order, each mapped to its cell |
| DataLoaderExample.TestFileRecords | tests/test_core/test_dataframe.py:28-36 | the small test file gives two records whose cells stay text, " 20" included |
| DataLoaderExample.TestFileFirstRecord | loader/dataloader.py:51 | the first record maps "name" to "Sam Jay" and "age" to " 20" |
| DataLoaderExample.DuplicateHeaderExample | loader/dataloader.py:51 | with the header "id" twice, the record has one "id" key holding the later cell |
| DataLoaderExample.TruncationExample | loader/dataloader.py:51 | a short row leaves out the later headers, and a long row loses its extra cells |

## Left out

- `core/database.py` is not part of this model. It is a PostgreSQL connection and transaction wrapper, which is I/O.
- The relational mapper (`Model`, `Manager`, `create_table`) has no source here. `model_manager.model(**data)` is modelled as a `Model` that holds the record. `Manager` only records what was saved, in order.
- `Schema`, the class at core/schema.py:92-93, is empty. The serialising field classes used by the endpoints are not defined anywhere. The `required` check named in the `Field` docstring has no implementation.
- `load.py` is not modelled: it is process-pool concurrency and logging.
- The retry queue (`RETRY_QUEUE`) is not defined in `loader/dataloader.py`. The tests that use it, and their `get_data_manager` override, are not modelled.
- `init_db`, `get_database`, the `get_data_model` subclasses, `load`/`alaod` and `validate_data` are not modelled. They read the environment, talk to the database, or do nothing.
- The endpoints, the Flask app and `shared/models.py` are not modelled.
- `Field` subclasses that override `from_native` or `getter` are not modelled, for example `TestField` in tests/test_core/test_schema.py:22-27. The model uses the base methods. So `getter` is always `None` and the `default_getter` branch always runs.
- `default_getter` is taken to be the class's `operator.attrgetter`, as in the tests. The accessor is modelled as the attribute name it reads. A schema class without a `default_getter` attribute would raise `AttributeError` in Python; this is not modelled.
- The converter is the field it belongs to, not the identity of a bound method.
- The class name passed to `type.__new__` is not modelled. That name is rebound by the loop at core/schema.py:51.
- Schema.FullMro: a class body that binds `_fields` itself is not modelled. In Python, `type.__new__` (core/schema.py:59) puts that value into the new class, and the walk at lines 63-65 would merge it. The model gives the new class no `_fields` of its own during the walk. It keeps such an attribute only as an ordinary namespace entry.
- Schema.NewSchemaClass: inherits the gap of `Schema.FullMro`. A class body that binds `_fields` to a dict of `Field`s would have those keys merged into the plan in Python. In the model they are not.
- Multiple inheritance is not modelled. The ancestors after the new class are a given list. Each ancestor's `_fields` is taken to resolve along the rest of that same list, which holds under single inheritance.
- `iter_to_str` calls `str()` on each item; the model takes the items as strings already.
- `open`, `readline`, closing the file and `FileNotFoundError` are not modelled. The file is the sequence of its `readline()` results.
- `StopIteration` is not modelled as an exception. `next` escaping a generator becomes `RuntimeError` in modern Python; that is not modelled either. A failed `next` is `None`, and `SaveData` returns `false` for the failure of an empty file.
- `get_data` is a generator. Its output is modelled by the function `Records`, and its lazy interleaving with `save` is modelled by the loop in `SaveRows`.

## Findings

| source | as written | input that shows it | evidently intended | confidence | as-written member | corrected member |
|---|---|---|---|---|---|---|
| core/schema.py:63 | `new_cls.__mro__[::1]` walks the MRO leaf first. The root-most ancestor's `_fields` are applied last, so they win for inherited keys. | `class Baz(TestSchemaBar): pass` with the test's `TestSchemaFoo` and `TestSchemaBar`. Baz's `field3` is `TestSchemaFoo`'s `Field(name="dbfield3", label="field3", required=False)`, not `TestSchemaBar`'s redeclared `Field()`. | `__mro__[::-1]`, walking root first, so the nearest redeclaration wins. | not executed | SchemaExamples.GrandchildRevertsRedeclaration | Schema.MergedRootFirstNearest |

`Schema.MergedInheritedRootMost` proves the as-written rule in general (root-most holder wins). `Schema.MergedRootFirst` is the corrected plan. `Schema.MergedRootFirstNearest` proves its nearest-holder rule. `Schema.NewSchemaClass` follows the code as written, so that it states what the repository does.
