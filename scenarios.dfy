/**
 * Client runs of the writer: a fresh document is initialised and then
 * grown. Each run states what the resulting object store holds.
 */
module Scenarios {

  import opened Wrappers
  import opened Variants
  import opened Objects
  import opened PageTree
  import opened FontCache
  import opened Writer

  /** What the invariant says about a document with exactly three tracked pages. */
  lemma ThreePageTree(objects: map<nat, Dict>, root: Reference, pages: seq<Reference>)
    requires |pages| == 3 && root.num in objects && TreeMatches(objects[root.num], pages)
    ensures Count in objects[root.num] && objects[root.num][Count] == RawData("3")
    ensures objects[root.num][Kids] == Arr([Ref(pages[0]), Ref(pages[1]), Ref(pages[2])])
  {
    assert Decimal(3) == "3";
    KidsOfAt(pages, 0);
    KidsOfAt(pages, 1);
    KidsOfAt(pages, 2);
  }

  /**
   * Three pages added to a freshly initialised document: the root counts
   * "3", its /Kids references the three pages in creation order, and every
   * page names the root as /Parent, whether or not its initialiser succeeded.
   */
  method ThreePages(date: string, ok1: bool, ok2: bool, ok3: bool)
    returns (status: Status, root: Reference, pages: seq<Reference>, objects: map<nat, Dict>)
    ensures status == Ok && |pages| == 3
    ensures pages[0].num < pages[1].num < pages[2].num
    ensures root.num in objects && Type in objects[root.num] && objects[root.num][Type] == Name("Pages")
    ensures Count in objects[root.num] && objects[root.num][Count] == RawData("3")
    ensures Kids in objects[root.num] && objects[root.num][Kids] == Arr([Ref(pages[0]), Ref(pages[1]), Ref(pages[2])])
    ensures forall k :: 0 <= k < 3 ==> PageLinked(objects, pages[k], root)
  {
    var w := new PdfSimpleWriter();
    status := w.Init(true, Ok, date);
    var a := w.CreatePage(TSize(595, 842), ok1);
    var b := w.CreatePage(TSize(595, 842), ok2);
    var c := w.CreatePage(TSize(595, 842), ok3);
    root, pages, objects := w.pageTree.value, w.pageRefs, w.store.objects;
    ThreePageTree(objects, root, pages);
  }

  /**
   * A font whose initialiser fails stays cached: asking again for the same
   * family returns the object the failed call created, and nothing new is
   * created.
   */
  method FontRetryAfterFailure(name: string, locate: string -> string)
    returns (first: Option<Reference>, second: Option<Reference>, fonts: seq<FontEntry>)
    requires locate(name) != []
    ensures first.None? && second.Some?
    ensures fonts == [FontEntry(second.value.num, locate(name))]
  {
    var w := new PdfSimpleWriter();
    var status := w.Init(true, Ok, "D:20060101000000");
    first := w.CreateFont(name, false, locate, false);
    second := w.CreateFont(name, false, locate, true);
    fonts := w.fonts;
  }

  /** A family name that resolves to no file yields no font and leaves the cache empty. */
  method UnresolvedFont(name: string, locate: string -> string)
    returns (font: Option<Reference>, fonts: seq<FontEntry>, objectCount: nat)
    requires locate(name) == []
    ensures font.None? && fonts == [] && objectCount == 3
  {
    var w := new PdfSimpleWriter();
    var status := w.Init(true, Ok, "D:20060101000000");
    font := w.CreateFont(name, true, locate, true);
    fonts := w.fonts;
    objectCount := |w.store.objects|;
  }
}
