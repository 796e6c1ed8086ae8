/**
 * The document assembler: it owns the object store, wires the page-tree
 * root into the catalog, grows the page tree one page at a time, keeps a
 * cache of font objects keyed by font file, and stamps the Info
 * dictionary.
 *
 * Calls into code this model does not contain are parameters: whether the
 * FreeType engine starts (`freeTypeOk`), what the base writer's own
 * initialisation reports (`baseInit`), the formatted creation date
 * (`date`), the font locator (`locate`: family name to file path, empty
 * when nothing is found), and whether a page's or a font's own
 * initialiser succeeds (`pageInitOk`, `fontInitOk`).
 */
module Writer {

  import opened Wrappers
  import opened Variants
  import opened Objects
  import opened PageTree
  import opened FontCache

  datatype ErrorCode = FreeType | Other(code: nat)

  /** What an initialisation step reports. */
  datatype Status = Ok | Error(code: ErrorCode)

  /** A page size, handed on to the page's own initialiser. */
  datatype TSize = TSize(width: int, height: int)

  /** The /Producer string stamped on the Info dictionary. */
  const ProducerName: string := "PoDoFo"

  /** The catalog's /Pages entry is the textual reference to the page-tree root. */
  ghost predicate CatalogLinks(catalog: Dict, root: Reference) {
    Pages in catalog && catalog[Pages] == RawData(RefText(root))
  }

  /** A page object exists and its /Parent references the page-tree root. */
  ghost predicate PageLinked(objects: map<nat, Dict>, page: Reference, root: Reference) {
    && page.num in objects
    && Parent in objects[page.num]
    && objects[page.num][Parent] == Ref(root)
  }

  /**
   * The writer's invariant over the store's contents: the page-tree root,
   * the catalog and the info object exist together; the root agrees with
   * the tracked pages and the catalog points at it; every tracked page
   * exists and names the root as its parent; the font list is sorted by
   * identity, with one entry per font file, all in the store.
   */
  ghost predicate Consistent(objects: map<nat, Dict>, catalog: Option<Reference>, info: Option<Reference>,
                             pageTree: Option<Reference>, pageRefs: seq<Reference>, fonts: seq<FontEntry>)
  {
    && (catalog.None? <==> pageTree.None?)
    && (info.None? <==> pageTree.None?)
    && (catalog.Some? ==> catalog.value.num in objects)
    && (info.Some? ==> info.value.num in objects)
    && (pageTree.None? ==> pageRefs == [])
    && (pageTree.Some? ==>
          && pageTree.value.num in objects
          && TreeMatches(objects[pageTree.value.num], pageRefs)
          && CatalogLinks(objects[catalog.value.num], pageTree.value)
          && (forall k :: 0 <= k < |pageRefs| ==> PageLinked(objects, pageRefs[k], pageTree.value)))
    && FontsValid(fonts)
    && (forall k :: 0 <= k < |fonts| ==> fonts[k].id in objects)
  }

  /** The dictionaries Init leaves on the catalog, the info object and the page-tree root. */
  function AfterInit(objects: map<nat, Dict>, c: nat, i: nat, t: nat, date: string): map<nat, Dict> {
    objects
      [c := map[Type := Name("Catalog"), Pages := RawData(RefText(Reference(t, 0)))]]
      [i := map[Producer := Str(ProducerName), CreationDate := Str(date)]]
      [t := map[Type := Name("Pages"), Kids := RawData("[ ]")]]
  }

  /** The store after CreatePage: the root's /Count and /Kids rebuilt, the page's /Parent set. */
  function AfterCreatePage(objects: map<nat, Dict>, root: Reference, refs: seq<Reference>, p: Reference): map<nat, Dict>
    requires root.num in objects
  {
    objects
      [root.num := objects[root.num][Count := RawData(Decimal(|refs|))][Kids := Arr(KidsOf(refs))]]
      [p.num := map[Parent := Ref(root)]]
  }

  /** Overwritten updates vanish, and updates at distinct numbers commute. */
  lemma UpdateChain(m: map<nat, Dict>, c: nat, i: nat, t: nat,
                    c0: Dict, c1: Dict, i0: Dict, i1: Dict, i2: Dict, t0: Dict, t1: Dict)
    requires c != i && i != t && c != t
    ensures m[c := c0][i := i0][t := t0][t := t1][c := c1][i := i1][i := i2] == m[c := c1][i := i2][t := t1]
  {
  }

  /** The store updates Init makes, one after the other, amount to AfterInit. */
  lemma InitSteps(before: map<nat, Dict>, c: nat, i: nat, t: nat, date: string, after: map<nat, Dict>)
    requires c != i && i != t && c != t
    requires after ==
      before[c := map[Type := Name("Catalog")]][i := map[]][t := map[Type := Name("Pages")]]
        [t := map[Type := Name("Pages")][Kids := RawData("[ ]")]]
        [c := map[Type := Name("Catalog")][Pages := RawData(RefText(Reference(t, 0)))]]
        [i := map[][Producer := Str(ProducerName)]]
        [i := map[][Producer := Str(ProducerName)][CreationDate := Str(date)]]
    ensures after == AfterInit(before, c, i, t, date)
  {
    UpdateChain(before, c, i, t,
      map[Type := Name("Catalog")], map[Type := Name("Catalog")][Pages := RawData(RefText(Reference(t, 0)))],
      map[], map[][Producer := Str(ProducerName)], map[][Producer := Str(ProducerName)][CreationDate := Str(date)],
      map[Type := Name("Pages")], map[Type := Name("Pages")][Kids := RawData("[ ]")]);
  }

  /**
   * Starting from a writer without page tree, the store Init leaves
   * satisfies the invariant, with no pages yet.
   */
  lemma InitEstablishes(before: map<nat, Dict>, fonts: seq<FontEntry>, c: nat, i: nat, t: nat, date: string,
                        catalog: Option<Reference>, info: Option<Reference>, pageTree: Option<Reference>,
                        refs: seq<Reference>)
    requires Consistent(before, None, None, None, [], fonts)
    requires c != i && i != t && c != t
    requires catalog == Some(Reference(c, 0)) && info == Some(Reference(i, 0)) && pageTree == Some(Reference(t, 0))
    requires refs == []
    ensures Consistent(AfterInit(before, c, i, t, date), catalog, info, pageTree, refs, fonts)
  {
  }

  /** The page's own entry is overwritten, so what the store held under its number before does not matter. */
  lemma AfterCreatePageFresh(before: map<nat, Dict>, root: Reference, refs: seq<Reference>, p: Reference, d: Dict)
    requires root.num in before && p.num != root.num
    ensures AfterCreatePage(before[p.num := d], root, refs, p) == AfterCreatePage(before, root, refs, p)
  {
  }

  /** CreatePage keeps the invariant, with the new page appended. */
  lemma CreatePagePreserves(before: map<nat, Dict>, catalog: Option<Reference>, info: Option<Reference>,
                            pageTree: Option<Reference>, refs: seq<Reference>, fonts: seq<FontEntry>,
                            p: Reference, after: map<nat, Dict>, refs': seq<Reference>)
    requires Consistent(before, catalog, info, pageTree, refs, fonts)
    requires pageTree.Some? && p.num !in before
    requires refs' == refs + [p]
    requires after == AfterCreatePage(before, pageTree.value, refs', p)
    ensures Consistent(after, catalog, info, pageTree, refs', fonts)
  {
    var root := pageTree.value;
    assert p.num != root.num && p.num != catalog.value.num;
    assert after[root.num] == before[root.num][Count := RawData(Decimal(|refs'|))][Kids := Arr(KidsOf(refs'))];
    assert TreeMatches(after[root.num], refs');
    assert CatalogLinks(after[catalog.value.num], root);
    forall k | 0 <= k < |refs'| ensures PageLinked(after, refs'[k], root) {
      if k < |refs| {
        assert refs'[k] == refs[k];
        assert PageLinked(before, refs[k], root);
      }
    }
  }

  /** Adding a new object under an unused number keeps the invariant. */
  lemma NewObjectPreserves(objects: map<nat, Dict>, catalog: Option<Reference>, info: Option<Reference>,
                           pageTree: Option<Reference>, refs: seq<Reference>, fonts: seq<FontEntry>,
                           n: nat, d: Dict)
    requires Consistent(objects, catalog, info, pageTree, refs, fonts)
    requires n !in objects
    ensures Consistent(objects[n := d], catalog, info, pageTree, refs, fonts)
  {
    if pageTree.Some? {
      forall k | 0 <= k < |refs| ensures PageLinked(objects[n := d], refs[k], pageTree.value) {
        assert PageLinked(objects, refs[k], pageTree.value);
      }
    }
  }

  /** A new font object, added to the store and to the list, keeps the invariant. */
  lemma NewFontPreserves(objects: map<nat, Dict>, catalog: Option<Reference>, info: Option<Reference>,
                         pageTree: Option<Reference>, refs: seq<Reference>, fonts: seq<FontEntry>,
                         e: FontEntry)
    requires Consistent(objects, catalog, info, pageTree, refs, fonts)
    requires e.id !in objects && FontsValid(fonts + [e])
    ensures Consistent(objects[e.id := map[]], catalog, info, pageTree, refs, fonts + [e])
  {
    NewObjectPreserves(objects, catalog, info, pageTree, refs, fonts, e.id, map[]);
  }

  /** Setting an Info key that the invariant does not speak about keeps the invariant. */
  lemma InfoKeyPreserves(objects: map<nat, Dict>, catalog: Option<Reference>, info: Reference,
                         pageTree: Option<Reference>, refs: seq<Reference>, fonts: seq<FontEntry>,
                         key: Key, value: Variant)
    requires Consistent(objects, catalog, Some(info), pageTree, refs, fonts)
    requires key !in {Type, Kids, Count, Parent, Pages}
    ensures Consistent(objects[info.num := objects[info.num][key := value]], catalog, Some(info), pageTree, refs, fonts)
  {
    var o := objects[info.num := objects[info.num][key := value]];
    if pageTree.Some? {
      forall k | 0 <= k < |refs| ensures PageLinked(o, refs[k], pageTree.value) {
        assert PageLinked(objects, refs[k], pageTree.value);
      }
    }
  }

  class PdfSimpleWriter {
    /** The object store (m_vecObjects). */
    const store: PdfVecObjects
    /** Set at the start of Init (m_bInitDone). */
    var initDone: bool
    /** The base writer's catalog and info objects, present once Init succeeded. */
    var catalog: Option<Reference>
    var info: Option<Reference>
    /** The page-tree root (m_pPageTree), NULL until Init succeeded. */
    var pageTree: Option<Reference>
    /** Every page reference created so far, in creation order (m_vecPageReferences). */
    var pageRefs: seq<Reference>
    /** The page counter (m_nPageTreeSize). */
    var pageTreeSize: nat
    /** The font list (m_vecFonts). */
    var fonts: seq<FontEntry>

    /** The counter equals the number of tracked pages, and the store is consistent. */
    ghost predicate Valid()
      reads this, store
    {
      && store.Valid()
      && pageTreeSize == |pageRefs|
      && Consistent(store.objects, catalog, info, pageTree, pageRefs, fonts)
    }

    constructor ()
      ensures Valid() && fresh(store)
      ensures store.objects == map[] && store.next == 1
      ensures !initDone && catalog.None? && info.None? && pageTree.None?
      ensures pageRefs == [] && pageTreeSize == 0 && fonts == []
    {
      store := new PdfVecObjects();
      initDone := false;
      catalog, info, pageTree := None, None, None;
      pageRefs, pageTreeSize := [], 0;
      fonts := [];
    }

    /**
     * The base writer's own initialisation, as far as this writer relies on
     * it: it creates the catalog (/Type /Catalog) and the info dictionary.
     */
    method BaseInit() returns (c: Reference, i: Reference)
      requires Valid() && pageTree.None?
      modifies this`catalog, this`info, store
      ensures store.Valid()
      ensures c == Reference(old(store.next), 0) && i == Reference(old(store.next) + 1, 0)
      ensures catalog == Some(c) && info == Some(i)
      ensures store.next == old(store.next) + 2
      ensures store.objects == old(store.objects)[c.num := map[Type := Name("Catalog")]][i.num := map[]]
    {
      c := store.CreateObject(Some("Catalog"));
      i := store.CreateObject(None);
      catalog, info := Some(c), Some(i);
    }

    /**
     * Starts the font engine, runs the base writer's initialisation (which
     * creates the catalog and the info object), creates the /Type /Pages
     * root with the literal empty /Kids, links it from the catalog's /Pages
     * and stamps /Producer and /CreationDate on Info. The first failure is
     * returned and nothing after it happens.
     */
    method Init(freeTypeOk: bool, baseInit: Status, date: string) returns (status: Status)
      requires Valid() && pageTree.None?
      modifies this, store
      ensures Valid() && initDone
      ensures pageRefs == old(pageRefs) && pageTreeSize == old(pageTreeSize) && fonts == old(fonts)
      ensures !freeTypeOk ==> status == Error(FreeType)
      ensures freeTypeOk && baseInit.Error? ==> status == baseInit
      ensures status.Error? ==>
                && catalog.None? && info.None? && pageTree.None?
                && store.objects == old(store.objects) && store.next == old(store.next)
      ensures freeTypeOk && baseInit.Ok? ==>
                var n := old(store.next);
                && status == Ok
                && catalog == Some(Reference(n, 0))
                && info == Some(Reference(n + 1, 0))
                && pageTree == Some(Reference(n + 2, 0))
                && store.next == n + 3
                && store.objects == AfterInit(old(store.objects), n, n + 1, n + 2, date)
    {
      initDone := true;
      if !freeTypeOk {
        return Error(FreeType);
      }
      if baseInit.Error? {
        return baseInit;
      }
      ghost var before := store.objects;
      assert Consistent(before, None, None, None, [], fonts);
      var c, i := BaseInit();

      var t := store.CreateObject(Some("Pages"));
      store.AddKey(t.num, Kids, RawData("[ ]"));
      store.AddKey(c.num, Pages, RawData(RefText(t)));
      store.AddKey(i.num, Producer, Str(ProducerName));
      store.AddKey(i.num, CreationDate, Str(date));
      pageTree := Some(t);
      status := Ok;

      assert store.Valid() && pageTreeSize == |pageRefs|;
      InitSteps(before, c.num, i.num, t.num, date, store.objects);
      InitEstablishes(before, fonts, c.num, i.num, t.num, date, catalog, info, pageTree, pageRefs);
    }

    /**
     * Creates a page object, appends its reference to the tracked list,
     * bumps the counter, overwrites the root's /Count and /Kids from the
     * whole list and sets the page's /Parent to the root. A failing page
     * initialiser makes the result None; the page-tree updates stay.
     */
    method CreatePage(size: TSize, pageInitOk: bool) returns (page: Option<Reference>)
      requires Valid() && pageTree.Some?
      modifies this`pageRefs, this`pageTreeSize, store
      ensures Valid()
      ensures var p := Reference(old(store.next), 0);
                && p.num !in old(store.objects)
                && pageRefs == old(pageRefs) + [p]
                && pageTreeSize == old(pageTreeSize) + 1
                && store.next == old(store.next) + 1
                && store.objects == AfterCreatePage(old(store.objects), pageTree.value, pageRefs, p)
                && page == (if pageInitOk then Some(p) else None)
    {
      ghost var before := store.objects;
      assert Consistent(before, catalog, info, pageTree, pageRefs, fonts);
      var p := store.CreateObject(None);
      pageRefs := pageRefs + [p];
      pageTreeSize := pageTreeSize + 1;
      LinkPage(pageTree.value, pageRefs, pageTreeSize, p);
      AfterCreatePageFresh(before, pageTree.value, pageRefs, p, map[]);
      CreatePagePreserves(before, catalog, info, pageTree, old(pageRefs), fonts, p, store.objects, pageRefs);
      // A failing page initialiser turns the result into NULL.
      page := if pageInitOk then Some(p) else None;
    }

    /**
     * The page-tree updates of CreatePage: the root's /Count becomes the
     * decimal rendering of the counter and its /Kids the array built from
     * the whole page list; the new page's /Parent becomes the root.
     */
    method LinkPage(root: Reference, refs: seq<Reference>, size: nat, p: Reference)
      requires store.Valid() && root.num in store.objects && p.num in store.objects && root.num != p.num
      requires store.objects[p.num] == map[] && size == |refs|
      modifies store
      ensures store.Valid() && store.next == old(store.next)
      ensures store.objects == AfterCreatePage(old(store.objects), root, refs, p)
    {
      var count := Decimal(size);
      var kids := KidsArray(refs);
      store.AddKey(root.num, Count, RawData(count));
      store.AddKey(root.num, Kids, Arr(kids));
      store.AddKey(p.num, Parent, Ref(root));
    }

    /**
     * Resolves a family name to a font file and returns the font object for
     * that file: None when no file is found; the cached object when an
     * entry for the file exists; otherwise a new object, appended to the
     * list, which is re-sorted before the font is initialised. A failing
     * font initialiser makes the result None; the new entry stays cached.
     * `embed` is handed on to the font's initialiser.
     */
    method CreateFont(fontName: string, embed: bool, locate: string -> string, fontInitOk: bool)
      returns (font: Option<Reference>)
      requires Valid()
      modifies this`fonts, store
      ensures Valid()
      ensures var path := locate(fontName);
                && (path == [] ==>
                      && font.None? && fonts == old(fonts)
                      && store.objects == old(store.objects) && store.next == old(store.next))
                && (path != [] && FindFont(old(fonts), path).Some? ==>
                      && font == Some(Reference(old(fonts)[FindFont(old(fonts), path).value].id, 0))
                      && fonts == old(fonts)
                      && store.objects == old(store.objects) && store.next == old(store.next))
                && (path != [] && FindFont(old(fonts), path).None? ==>
                      var e := FontEntry(old(store.next), path);
                      && store.objects == old(store.objects)[e.id := map[]]
                      && store.next == old(store.next) + 1
                      && SortedById(fonts)
                      && multiset(fonts) == multiset(old(fonts)) + multiset{e}
                      && fonts == old(fonts) + [e]
                      && font == (if fontInitOk then Some(Reference(e.id, 0)) else None))
    {
      var path := locate(fontName);
      if path == [] {
        return None;
      }
      var found := FindFont(fonts, path);
      if found.None? {
        ghost var before := store.objects;
        var f := store.CreateObject(None);
        var e := FontEntry(f.num, path);
        var sorted := SortById(fonts + [e]);
        AppendFresh(fonts, e, sorted);
        NewFontPreserves(before, catalog, info, pageTree, pageRefs, fonts, e);
        fonts := sorted;
        if !fontInitOk {
          return None;
        }
        font := Some(f);
      } else {
        font := Some(Reference(fonts[found.value].id, 0));
      }
    }

    /** Creates an image object: always a new object, under a number no other object has. */
    method CreateImage() returns (image: Reference)
      requires Valid()
      modifies store
      ensures Valid()
      ensures image == Reference(old(store.next), 0) && image.num !in old(store.objects)
      ensures store.next == old(store.next) + 1
      ensures store.objects == old(store.objects)[image.num := map[]]
    {
      ghost var before := store.objects;
      image := store.CreateObject(None);
      NewObjectPreserves(before, catalog, info, pageTree, pageRefs, fonts, image.num, map[]);
    }

    /** Sets /Author on Info; nothing else changes. */
    method SetDocumentAuthor(author: string)
      requires Valid() && info.Some?
      modifies store
      ensures Valid() && store.next == old(store.next)
      ensures store.objects == old(store.objects)[info.value.num :=
                old(store.objects)[info.value.num][Author := Str(author)]]
    {
      InfoKeyPreserves(store.objects, catalog, info.value, pageTree, pageRefs, fonts, Author, Str(author));
      store.AddKey(info.value.num, Author, Str(author));
    }

    /** Sets /Creator on Info; nothing else changes. */
    method SetDocumentCreator(creator: string)
      requires Valid() && info.Some?
      modifies store
      ensures Valid() && store.next == old(store.next)
      ensures store.objects == old(store.objects)[info.value.num :=
                old(store.objects)[info.value.num][Creator := Str(creator)]]
    {
      InfoKeyPreserves(store.objects, catalog, info.value, pageTree, pageRefs, fonts, Creator, Str(creator));
      store.AddKey(info.value.num, Creator, Str(creator));
    }

    /** Sets /Keywords on Info; nothing else changes. */
    method SetDocumentKeywords(keywords: string)
      requires Valid() && info.Some?
      modifies store
      ensures Valid() && store.next == old(store.next)
      ensures store.objects == old(store.objects)[info.value.num :=
                old(store.objects)[info.value.num][Keywords := Str(keywords)]]
    {
      InfoKeyPreserves(store.objects, catalog, info.value, pageTree, pageRefs, fonts, Keywords, Str(keywords));
      store.AddKey(info.value.num, Keywords, Str(keywords));
    }

    /** Sets /Subject on Info; nothing else changes. */
    method SetDocumentSubject(subject: string)
      requires Valid() && info.Some?
      modifies store
      ensures Valid() && store.next == old(store.next)
      ensures store.objects == old(store.objects)[info.value.num :=
                old(store.objects)[info.value.num][Subject := Str(subject)]]
    {
      InfoKeyPreserves(store.objects, catalog, info.value, pageTree, pageRefs, fonts, Subject, Str(subject));
      store.AddKey(info.value.num, Subject, Str(subject));
    }

    /** Sets /Title on Info; nothing else changes. */
    method SetDocumentTitle(title: string)
      requires Valid() && info.Some?
      modifies store
      ensures Valid() && store.next == old(store.next)
      ensures store.objects == old(store.objects)[info.value.num :=
                old(store.objects)[info.value.num][Title := Str(title)]]
    {
      InfoKeyPreserves(store.objects, catalog, info.value, pageTree, pageRefs, fonts, Title, Str(title));
      store.AddKey(info.value.num, Title, Str(title));
    }
  }
}
