/** Decoding a metalink document into the `Metalink` struct of
    downloader/downloader.go with encoding/xml, over the document's element
    tree. */
module Metalink {
  import opened Wrappers

  /** An XML element as encoding/xml matches it: its local name, its own
      character data, and its child elements in document order. */
  datatype Element = Element(name: string, text: string, children: seq<Element>)

  /** The decoded document: its file entries, each with the URL strings
      decoded from it. */
  datatype FileEntry = FileEntry(urls: seq<string>)
  datatype Descriptor = Descriptor(files: seq<FileEntry>)

  /** The children called `name`, in document order: the elements a slice
      field tagged with that name collects. */
  function ChildrenNamed(children: seq<Element>, name: string): (r: seq<Element>)
    ensures |r| <= |children|
    ensures forall i :: 0 <= i < |r| ==> r[i].name == name && r[i] in children
    ensures (exists i :: 0 <= i < |children| && children[i].name == name) <==> r != []
  {
    if children == [] then []
    else (if children[0].name == name then [children[0]] else []) + ChildrenNamed(children[1..], name)
  }

  /** Exactly the children with that name are collected. */
  lemma {:induction false} ChildrenNamedMembers(children: seq<Element>, name: string, e: Element)
    ensures e in ChildrenNamed(children, name) <==> e in children && e.name == name
  {
    if children != [] {
      ChildrenNamedMembers(children[1..], name, e);
      assert e in children <==> e == children[0] || e in children[1..];
    }
  }

  /** The first collected element is the first child with that name. */
  lemma {:induction false} ChildrenNamedFirst(children: seq<Element>, name: string, k: nat)
    requires k < |children| && children[k].name == name
    requires forall j :: 0 <= j < k ==> children[j].name != name
    ensures ChildrenNamed(children, name) != [] && ChildrenNamed(children, name)[0] == children[k]
  {
    if k > 0 {
      assert children[1..][k - 1] == children[k];
      ChildrenNamedFirst(children[1..], name, k - 1);
    }
  }

  /** The last collected element is the last child with that name. */
  lemma {:induction false} ChildrenNamedLast(children: seq<Element>, name: string, k: nat)
    requires k < |children| && children[k].name == name
    requires forall j :: k < j < |children| ==> children[j].name != name
    ensures var r := ChildrenNamed(children, name); r != [] && r[|r| - 1] == children[k]
  {
    var tail := children[1..];
    if k == 0 {
      forall i | 0 <= i < |tail|
        ensures tail[i].name != name
      {
        assert tail[i] == children[i + 1];
      }
      assert ChildrenNamed(tail, name) == [];
      assert ChildrenNamed(children, name) == [children[0]] + ChildrenNamed(tail, name);
    } else {
      assert children[1..][k - 1] == children[k];
      ChildrenNamedLast(children[1..], name, k - 1);
    }
  }

  /** Collecting distributes over concatenation: the matching children keep
      their document order and none is dropped or repeated. */
  lemma {:induction false} ChildrenNamedAppend(a: seq<Element>, b: seq<Element>, name: string)
    ensures ChildrenNamed(a + b, name) == ChildrenNamed(a, name) + ChildrenNamed(b, name)
  {
    if a == [] {
      assert a + b == b;
    } else {
      var head := if a[0].name == name then [a[0]] else [];
      calc {
        ChildrenNamed(a + b, name);
        { assert (a + b)[0] == a[0]; }
        head + ChildrenNamed((a + b)[1..], name);
        { assert (a + b)[1..] == a[1..] + b; }
        head + ChildrenNamed(a[1..] + b, name);
        { ChildrenNamedAppend(a[1..], b, name); }
        head + (ChildrenNamed(a[1..], name) + ChildrenNamed(b, name));
        (head + ChildrenNamed(a[1..], name)) + ChildrenNamed(b, name);
        ChildrenNamed(a, name) + ChildrenNamed(b, name);
      }
    }
  }

  /** The struct's shape, with `urlOf` deciding the string each <url>
      element of a <file> contributes. A root not called "metalink" is the
      decoder's error. */
  function DecodeWith(root: Element, urlOf: Element -> string): (r: Result<Descriptor, string>)
    ensures r.Err? <==> root.name != "metalink"
    ensures r.Err? ==> r.error == "expected element type <metalink> but have <" + root.name + ">"
    ensures r.Ok? ==> var files := ChildrenNamed(root.children, "file");
      |r.value.files| == |files| &&
      forall i :: 0 <= i < |files| ==>
        var us := ChildrenNamed(files[i].children, "url");
        |r.value.files[i].urls| == |us| &&
        forall j :: 0 <= j < |us| ==> r.value.files[i].urls[j] == urlOf(us[j])
  {
    if root.name != "metalink" then
      Err("expected element type <metalink> but have <" + root.name + ">")
    else
      var files := ChildrenNamed(root.children, "file");
      Ok(Descriptor(seq(|files|, i requires 0 <= i < |files| =>
        var us := ChildrenNamed(files[i].children, "url");
        FileEntry(seq(|us|, j requires 0 <= j < |us| => urlOf(us[j]))))))
  }

  /** What the field `URL string `xml:"url"`` inside the element type of
      `URLs` decodes from one <url> element: the character data of the last
      <url> nested inside it, or "" if there is none. The element's own text
      is dropped. */
  function NestedUrl(u: Element): (r: string)
    ensures (forall k :: 0 <= k < |u.children| ==> u.children[k].name != "url") ==> r == ""
  {
    var inner := ChildrenNamed(u.children, "url");
    if inner == [] then "" else inner[|inner| - 1].text
  }

  /** When several <url> elements are nested, the last one wins. */
  lemma NestedUrlIsLast(u: Element, k: nat)
    requires k < |u.children| && u.children[k].name == "url"
    requires forall j :: k < j < |u.children| ==> u.children[j].name != "url"
    ensures NestedUrl(u) == u.children[k].text
  {
    ChildrenNamedLast(u.children, "url", k);
  }

  /** The decoding as the struct tags are written. */
  function DecodeAsWritten(root: Element): (r: Result<Descriptor, string>)
    ensures r.Err? <==> root.name != "metalink"
    ensures r.Ok? ==> var files := ChildrenNamed(root.children, "file");
      |r.value.files| == |files| &&
      forall i :: 0 <= i < |files| ==>
        var us := ChildrenNamed(files[i].children, "url");
        |r.value.files[i].urls| == |us| &&
        forall j :: 0 <= j < |us| ==> r.value.files[i].urls[j] == NestedUrl(us[j])
  {
    DecodeWith(root, NestedUrl)
  }

  /** The decoding the struct evidently means: each <url> element's own
      character data, as a field tagged `xml:",chardata"` would give. */
  function Decode(root: Element): (r: Result<Descriptor, string>)
    ensures r.Err? <==> root.name != "metalink"
    ensures r.Err? ==> r.error == "expected element type <metalink> but have <" + root.name + ">"
  {
    DecodeWith(root, (u: Element) => u.text)
  }

  /** Decode gives one entry per <file> child of the root and one URL per
      <url> child of that file, each being the <url> element's text. */
  lemma DecodeKeepsUrlText(root: Element)
    requires root.name == "metalink"
    ensures Decode(root).Ok?
    ensures var files := ChildrenNamed(root.children, "file");
      |Decode(root).value.files| == |files| &&
      forall i :: 0 <= i < |files| ==>
        var us := ChildrenNamed(files[i].children, "url");
        |Decode(root).value.files[i].urls| == |us| &&
        forall j :: 0 <= j < |us| ==> Decode(root).value.files[i].urls[j] == us[j].text
  {
  }

  /** As written, every URL of a document whose <url> elements hold no
      nested <url> decodes to "", whatever else the document holds. */
  lemma AsWrittenDropsUrlText(root: Element)
    requires root.name == "metalink"
    requires forall f :: f in root.children ==>
      forall u :: u in f.children && u.name == "url" ==> ChildrenNamed(u.children, "url") == []
    ensures DecodeAsWritten(root).Ok?
    ensures forall i :: 0 <= i < |DecodeAsWritten(root).value.files| ==>
      forall j :: 0 <= j < |DecodeAsWritten(root).value.files[i].urls| ==>
        DecodeAsWritten(root).value.files[i].urls[j] == ""
  {
    var files := ChildrenNamed(root.children, "file");
    forall i | 0 <= i < |files|
      ensures forall u :: u in ChildrenNamed(files[i].children, "url") ==> NestedUrl(u) == ""
    {
      assert files[i] in root.children;
    }
  }

  /** <metalink><file><url>http://a/x.bin</url></file></metalink> */
  const OneMirror: Element :=
    Element("metalink", "", [Element("file", "", [Element("url", "http://a/x.bin", [])])])

  lemma OneMirrorDecodings()
    ensures DecodeAsWritten(OneMirror) == Ok(Descriptor([FileEntry([""])]))
    ensures Decode(OneMirror) == Ok(Descriptor([FileEntry(["http://a/x.bin"])]))
  {
    var file := OneMirror.children[0];
    assert ChildrenNamed(OneMirror.children, "file") == [file];
    assert ChildrenNamed(file.children, "url") == [file.children[0]];
    assert NestedUrl(file.children[0]) == "";
    var w := DecodeAsWritten(OneMirror).value;
    assert |w.files| == 1 && |w.files[0].urls| == 1 && w.files[0].urls[0] == "";
    assert w.files[0].urls == [""];
    assert w.files[0] == FileEntry([""]);
    assert w.files == [FileEntry([""])];
    assert DecodeAsWritten(OneMirror) == Ok(Descriptor(w.files));
    var d := Decode(OneMirror).value;
    assert |d.files| == 1 && |d.files[0].urls| == 1 && d.files[0].urls[0] == "http://a/x.bin";
    assert d.files[0].urls == ["http://a/x.bin"];
    assert d.files[0] == FileEntry(["http://a/x.bin"]);
    assert d.files == [FileEntry(["http://a/x.bin"])];
    assert Decode(OneMirror) == Ok(Descriptor(d.files));
  }

  /** <url><url>http://a/x.bin</url><url>http://b/x.bin</url></url>: as
      written, the later nested <url> overwrites the earlier one. */
  lemma NestedUrlTakesLast(a: string, b: string, text: string)
    ensures NestedUrl(Element("url", text, [Element("url", a, []), Element("url", b, [])])) == b
  {
    var u := Element("url", text, [Element("url", a, []), Element("url", b, [])]);
    NestedUrlIsLast(u, 1);
  }
}
