# PdfSimpleWriter bookkeeping, modelled in Dafny

PoDoFo's `PdfSimpleWriter` assembles a PDF document in memory. It owns an
object store (`m_vecObjects`) that hands out object numbers. `Init` creates
the page-tree root and links it from the catalog. `CreatePage` grows the page
tree one page at a time: it appends the reference to a tracked list, bumps a
counter, rebuilds `/Kids` from the whole list and overwrites `/Count`.
`CreateFont` keeps a cache of font objects. A font family name is resolved to
a font file. The cache is scanned for an entry with that file, and a new
entry is appended and the list re-sorted. `CreateImage` makes a fresh
object. The `SetDocument*` setters each overwrite one key of the Info
dictionary.

The model is imperative, like the source:

- `Objects.PdfVecObjects` is the object store. It is a class with a
  `map<nat, Dict>` of dictionaries and a `next` counter.
- `Writer.PdfSimpleWriter` is a class with the source's member fields:
  - the page-tree root;
  - the tracked page references as a `seq`;
  - the page counter;
  - the font list as a `seq`;
  - the init flag;
  - the base writer's catalog and Info objects.
- Its methods change those fields and the store with `modifies` frames. Their
  `ensures` give the new state in full.
- `Writer.PdfSimpleWriter.Valid` is the invariant every operation keeps:
  - the counter equals the number of tracked pages;
  - the root's `/Count` is the decimal rendering of that number;
  - the root's `/Kids` holds one Reference per tracked page, in order;
  - every page's `/Parent` is the root;
  - the catalog's `/Pages` is the text of the root's reference;
  - the font list is sorted by identity, and no two entries share an identity or a font file.
- Pure companions state what the stored values mean:
  - `PageTree.KidsOf` builds the array, and `PageTree.KidsArray` is the loop that builds it;
  - `Variants.Decimal` and `Variants.ParseDecimal` render and read back
    decimal text, and `Variants.RefText` and `Variants.ParseRef` do the same for "num gen R";
  - `FontCache.FindFont` is the linear lookup, and `FontCache.SortById` is the insertion sort.
- Lemmas connect the pure companions to the state.

`AddKey` is handed C strings for `/Kids` (the initial `[ ]`), `/Count`
and the catalog's `/Pages`. What the object stores for a C string belongs
to `PdfObject`, which is not part of this model, so the model keeps each as
`RawData` text, exactly as passed. The round-trip lemmas show that the
`/Count` and `/Pages` texts denote the page count and the root's reference.

Calls into code outside this file become parameters of the methods:
- `freeTypeOk` is whether FreeType starts;
- `baseInit` is what the base `PdfWriter::Init` reports;
- `date` is the formatted creation date;
- `locate` is the font locator, mapping a family name to a file path, or to empty when nothing is found;
- `pageInitOk` and `fontInitOk` are whether the page's and the font's own initialisers succeed.

The page counter is its own field, incremented on each call; it is not
recomputed from the list's length. That the two stay equal is part of the
invariant.

## Model

| member | source | states |
|---|---|---|
| Objects.PdfVecObjects.constructor | src/PdfSimpleWriter.cpp:57-66 | the store starts empty, with object numbers starting at 1 |
| Objects.PdfVecObjects.CreateObject | src/PdfSimpleWriter.cpp:111 | a new object gets a number no existing object has (generation 0), tagged `/Type` when a type name is given; only that entry is added |
| Objects.PdfVecObjects.AddKey | src/PdfSimpleWriter.cpp:131-134 | one key of one object is set; every other key and object is unchanged |
| Variants.Decimal | src/PdfSimpleWriter.cpp:116 | the `ostream << n` rendering: a non-empty digit string with no leading zero |
| Variants.DecimalRoundTrip | src/PdfSimpleWriter.cpp:131 | the `/Count` text reads back as the number that was rendered |
| Variants.DecimalInjective | src/PdfSimpleWriter.cpp:131 | different page counts give different `/Count` texts |
| Variants.ParseRefParts | src/PdfSimpleWriter.cpp:95 | "a b R" with digit strings a and b parses as the reference they spell |
| Variants.RefTextRoundTrip | src/PdfSimpleWriter.cpp:95 | the reference text stored in the catalog's `/Pages` parses back as the root's reference |
| PageTree.KidsOfAt | src/PdfSimpleWriter.cpp:118-129 | the Kids array has one entry per tracked page, and its i-th entry is a Reference to the i-th page |
| PageTree.KidsOfAppend | src/PdfSimpleWriter.cpp:114-129 | rebuilding the array for one more page equals appending one Reference to the previous array, so a full rebuild and an incremental append agree |
| PageTree.KidsArray | src/PdfSimpleWriter.cpp:118-129 | the while loop over the tracked list yields the array of References to every page, in order |
| PageTree.TreeMatchesMeaning | src/PdfSimpleWriter.cpp:116-132 | a root consistent with a non-empty page list has a `/Count` that reads back as the list's length and a `/Kids` whose i-th entry references the i-th page |
| FontCache.FindFont | src/PdfSimpleWriter.cpp:41-54 | the `find_if`/`FontComperator` scan: the first entry whose metrics file equals the path; None exactly when no entry has that path |
| FontCache.SiftInto | src/PdfSimpleWriter.cpp:172 | one insertion step: the prefix one longer is sorted, the rest unchanged, and the elements are the same |
| FontCache.SortById | src/PdfSimpleWriter.cpp:172 | the re-sort: the result is sorted by object identity and is a permutation of the input |
| FontCache.SortedUnique | src/PdfSimpleWriter.cpp:172 | two sorted permutations of a list with distinct identities are the same list |
| FontCache.AppendFresh | src/PdfSimpleWriter.cpp:166-172 | appending a new object (larger identity, new path) and re-sorting leaves the new entry last, with the list still sorted and one entry per path |
| Writer.InitSteps | src/PdfSimpleWriter.cpp:90-99 | the chain of store updates Init makes amounts to the catalog, Info and root dictionaries stated by AfterInit |
| Writer.CreatePagePreserves | src/PdfSimpleWriter.cpp:111-134 | the store after CreatePage keeps the invariant with the new page appended to the tracked list |
| Writer.NewObjectPreserves | src/PdfSimpleWriter.cpp:188-191 | adding an object under an unused number keeps the invariant |
| Writer.NewFontPreserves | src/PdfSimpleWriter.cpp:166-169 | a new font object added to the store and the list keeps the invariant |
| Writer.InfoKeyPreserves | src/PdfSimpleWriter.cpp:193-216 | setting an Info key the page tree does not use keeps the invariant |
| Writer.PdfSimpleWriter.constructor | src/PdfSimpleWriter.cpp:57-66 | no page tree, zero pages, an empty font list, the init flag off, and an empty store |
| Writer.PdfSimpleWriter.BaseInit | src/PdfSimpleWriter.cpp:90 | the base writer's catalog (`/Type /Catalog`) and Info objects, created in that order |
| Writer.PdfSimpleWriter.Init | src/PdfSimpleWriter.cpp:78-102 | the init flag is set first. A FreeType failure, then a base-writer failure, returns its error with nothing else changed. Otherwise, behind the catalog and Info, a `/Type /Pages` root with `/Kids [ ]` is created, the catalog's `/Pages` names it, and Info gets `/Producer (PoDoFo)` and `/CreationDate` |
| Writer.PdfSimpleWriter.CreatePage | src/PdfSimpleWriter.cpp:104-142 | a fresh page reference is appended to the tracked list, the counter grows by one, the root's `/Count` and `/Kids` are rebuilt from the whole list, and the page's `/Parent` is the root. A failing page initialiser yields None, with every update kept |
| Writer.PdfSimpleWriter.LinkPage | src/PdfSimpleWriter.cpp:116-134 | `/Count` becomes the counter's decimal text, `/Kids` the array of the whole list, and the page's `/Parent` the root; nothing else changes |
| Writer.PdfSimpleWriter.CreateFont | src/PdfSimpleWriter.cpp:144-186 | an empty path yields None and changes nothing. A cached path yields that entry's object and changes nothing. A new path adds exactly one object and one entry, appended and still sorted, which stays cached even when the font initialiser fails (then None) |
| Writer.PdfSimpleWriter.CreateImage | src/PdfSimpleWriter.cpp:188-191 | the image is a new object, numbered differently from every existing one; only that entry is added |
| Writer.PdfSimpleWriter.SetDocumentAuthor | src/PdfSimpleWriter.cpp:193-196 | Info's `/Author` is set; every other key and object is unchanged |
| Writer.PdfSimpleWriter.SetDocumentCreator | src/PdfSimpleWriter.cpp:198-201 | Info's `/Creator` is set; every other key and object is unchanged |
| Writer.PdfSimpleWriter.SetDocumentKeywords | src/PdfSimpleWriter.cpp:203-206 | Info's `/Keywords` is set; every other key and object is unchanged |
| Writer.PdfSimpleWriter.SetDocumentSubject | src/PdfSimpleWriter.cpp:208-211 | Info's `/Subject` is set; every other key and object is unchanged |
| Writer.PdfSimpleWriter.SetDocumentTitle | src/PdfSimpleWriter.cpp:213-216 | Info's `/Title` is set; every other key and object is unchanged |
| Scenarios.ThreePageTree | src/PdfSimpleWriter.cpp:116-132 | a root consistent with three tracked pages has `/Count` "3" and `/Kids` referencing those three pages in order |
| Scenarios.ThreePages | src/PdfSimpleWriter.cpp:104-142 | initialising and adding three pages gives `/Count` "3", `/Kids` referencing the three distinct pages in creation order, and each page's `/Parent` the root, whatever the page initialisers report |
| Scenarios.FontRetryAfterFailure | src/PdfSimpleWriter.cpp:162-183 | after a font whose initialiser failed, asking for the same family returns the cached object, and the cache holds exactly one entry |
| Scenarios.UnresolvedFont | src/PdfSimpleWriter.cpp:156-160 | a family that resolves to no file yields no font, leaves the cache empty and the store with only the three objects Init created |

## Left out

- The fontconfig and FreeType handles, their set-up and the destructor are
  foreign library state. FreeType start-up is the `freeTypeOk` parameter;
  the destructor is not part of this model.
- Font path resolution (`GetFilenameForFont`) and loading metrics
  (`new PdfFontMetrics`) touch the file system. The locator is the `locate`
  parameter, and the metrics file name of an entry is its `path`.
- The code of `PdfWriter::Init`, `PdfPage::Init` and `PdfFont::Init` is not
  part of this model. Each is an outcome parameter, and whatever objects or
  keys they add themselves are not modelled. `PdfWriter::Init` is taken to
  create the catalog (`/Type /Catalog`) and then an empty Info object.
- The typed objects (`PdfPage`, `PdfFont`, `PdfImage`) are created with an
  empty dictionary. The keys their own constructors add are not modelled.
- `PdfDate` formatting is the `date` parameter. `LogMessage` and
  `PrintErrorMsg` are diagnostics and are left out.
- `delete pPage` after a failed page initialiser is memory management. The
  model keeps the page object in the store, where the tree still references
  it.
- The counter is a machine integer, declared in a header that is not part of this model. The model's counter is
  unbounded, so overflow of the machine counter is not modelled.
- `std::sort` on the font list compares pointer values. The model sorts by
  object number, an identity order that grows with creation. As a result the
  re-sort leaves the new entry last; with real pointer values the new entry
  could land anywhere.
- Writer.PdfSimpleWriter.CreateFont: a new entry carries its metrics file
  name (`path`) from the moment it is created. In the source the font
  object is created without metrics, and the metrics reach it only through
  `PdfFont::Init`, whose code is not part of this model. The lookup reads
  the file name through the font's metrics. So the model assumes that
  `PdfFont::Init` attaches the metrics before it can fail. The
  one-entry-per-file invariant in `FontCache.FontsValid`, and the result of
  Scenarios.FontRetryAfterFailure (a retry after a failed font
  initialiser returns the cached object), depend on this assumption.
- Writer.PdfSimpleWriter.Init: requires that no earlier Init succeeded.
  Re-running Init would create a second page tree and is not modelled.
- Writer.PdfSimpleWriter.CreatePage: requires a successful Init. The source
  dereferences a null page-tree root otherwise.
- Writer.PdfSimpleWriter.SetDocumentAuthor (and the other four setters):
  require an Info object, i.e. a successful Init. The source dereferences
  the base writer's Info pointer.
- `TSize` and the `embed` flag are only handed on to the page's and the
  font's initialisers, so the model carries them without effect.
- The variant's real-number kind is not used by this core and is left out.
- `src/PdfArray.h` is `std::vector<PdfVariant>`; it is `seq<Variant>` inside `Variants.Variant`.
- Serialization of the store (xref, trailer) is not part of this model.
