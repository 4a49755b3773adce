/** The documented examples of expandBraces, worked one rewrite at a time. */
module BracesExamples {
  import opened StringUtils
  import opened Braces

  /** One rewrite of a two-way group `pre{a,b}post`. */
  lemma Rewrite2(s: string, pre: string, a: string, b: string, post: string, x: string, y: string)
    requires s == pre + "{" + a + "," + b + "}" + post
    requires Plain(a) && Plain(b)
    requires forall i', j' :: 0 <= i' < |pre| ==> !IsGroup(s, i', j')
    requires x == pre + a + post && y == pre + b + post
    ensures Expand(s) == Expand(y) + Expand(x)
  {
    assert ["a", "b"][1..] == ["b"];
    assert [a, b][1..] == [b];
    assert Join([a, b], ',') == a + "," + b;
    assert s == pre + "{" + Join([a, b], ',') + "}" + post;
    ExpandRewrite(pre, [a, b], post);
    assert seq(2, k requires 0 <= k < 2 => pre + [a, b][k] + post) == [x, y];
    ExpandStack2(x, y);
  }

  /** One rewrite of a three-way group `pre{a,b,c}post`. */
  lemma Rewrite3(s: string, pre: string, a: string, b: string, c: string, post: string,
                 x: string, y: string, z: string)
    requires s == pre + "{" + a + "," + b + "," + c + "}" + post
    requires Plain(a) && Plain(b) && Plain(c)
    requires forall i', j' :: 0 <= i' < |pre| ==> !IsGroup(s, i', j')
    requires x == pre + a + post && y == pre + b + post && z == pre + c + post
    ensures Expand(s) == Expand(z) + Expand(y) + Expand(x)
  {
    assert [a, b, c][1..] == [b, c];
    assert [b, c][1..] == [c];
    assert Join([b, c], ',') == b + "," + c;
    assert Join([a, b, c], ',') == a + "," + b + "," + c;
    assert s == pre + "{" + Join([a, b, c], ',') + "}" + post;
    ExpandRewrite(pre, [a, b, c], post);
    assert seq(3, k requires 0 <= k < 3 => pre + [a, b, c][k] + post) == [x, y, z];
    ExpandStack3(x, y, z);
  }

  /** A string without an opening brace is finished. */
  lemma Leaf(s: string)
    requires '{' !in s
    ensures Expand(s) == [s]
  {
    ExpandLeaf(s);
  }

  /** A two-way rewrite whose children are both finished. */
  lemma Leaves2(a: string, x: string, y: string)
    requires Expand(a) == Expand(y) + Expand(x)
    requires Expand(x) == [x] && Expand(y) == [y]
    ensures Expand(a) == [y, x]
  {
  }

  /** A three-way rewrite whose children are all finished. */
  lemma Leaves3(a: string, a1: string, a2: string, a3: string)
    requires Expand(a) == Expand(a3) + Expand(a2) + Expand(a1)
    requires Expand(a1) == [a1] && Expand(a2) == [a2] && Expand(a3) == [a3]
    ensures Expand(a) == [a3, a2, a1]
  {
  }

  lemma Concat2(t: string, a: string, b: string, xs: seq<string>, ys: seq<string>)
    requires Expand(t) == Expand(a) + Expand(b)
    requires Expand(a) == xs && Expand(b) == ys
    ensures Expand(t) == xs + ys
  {
  }

  lemma BracesOf(t: string, xs: seq<string>, r: seq<string>)
    requires Expand(t) == xs && AppendNew([], xs) == r
    ensures ExpandBraces(t) == r
  {
    ExpandBracesIsDedup(t);
  }

  /** Two brace-free strings make a brace-free string, a finished one. */
  lemma LeafConcat(a: string, b: string)
    requires forall t :: 0 <= t < |a| ==> !IsBrace(a[t])
    requires forall t :: 0 <= t < |b| ==> !IsBrace(b[t])
    ensures Expand(a + b) == [a + b]
  {
    forall t | 0 <= t < |a + b|
      ensures (a + b)[t] != '{'
    {
      if t < |a| {
        assert (a + b)[t] == a[t];
      } else {
        assert (a + b)[t] == b[t - |a|];
      }
    }
    ExpandLeaf(a + b);
  }

  lemma SuffixShape(stem: string, tail: string, dtail: string)
    requires tail == ", please." && dtail == "d, please."
    ensures stem + "{d,}" + tail == stem + "{" + "d" + "," + "" + "}" + tail
    ensures stem + "" + tail == stem + tail
    ensures stem + "d" + tail == stem + dtail
  {
  }

  /** `stem{d,}, please.` yields the bare stem first, then the one with `d`. */
  lemma Suffix(stem: string, tail: string, dtail: string)
    requires tail == ", please." && dtail == "d, please."
    requires forall t :: 0 <= t < |stem| ==> !IsBrace(stem[t])
    ensures Expand(stem + "{d,}" + tail) == [stem + tail, stem + dtail]
  {
    var s := stem + "{d,}" + tail;
    SuffixShape(stem, tail, dtail);
    forall i', j' | 0 <= i' < |stem|
      ensures !IsGroup(s, i', j')
    {
      assert s[i'] == stem[i'];
    }
    Rewrite2(s, stem, "d", "", tail, stem + dtail, stem + tail);
    SuffixLeaves(stem, tail, dtail);
  }

  lemma SuffixLeaves(stem: string, tail: string, dtail: string)
    requires tail == ", please." && dtail == "d, please."
    requires forall t :: 0 <= t < |stem| ==> !IsBrace(stem[t])
    ensures Expand(stem + tail) == [stem + tail]
    ensures Expand(stem + dtail) == [stem + dtail]
  {
    LeafConcat(stem, dtail);
    LeafConcat(stem, tail);
  }

  /** The dedup pattern of the example: the first run of outputs is
      repeated later and dropped. */
  lemma DedupRepeat(it: seq<string>, il: seq<string>, im: seq<string>)
    requires Distinct(it + il + im)
    ensures AppendNew([], (it + il) + (it + im)) == it + il + im
  {
    AppendNewConcat([], it + il, it + im);
    AppendNewConcat(it + il, it, im);
    assert Distinct([] + (it + il)) by {
      assert [] + (it + il) == it + il;
      forall a, b | 0 <= a < b < |it + il|
        ensures (it + il)[a] != (it + il)[b]
      {
        assert (it + il)[a] == (it + il + im)[a] && (it + il)[b] == (it + il + im)[b];
      }
    }
    AppendNewDistinct([], it + il);
    assert [] + (it + il) == it + il;
    AppendNewSeen(it + il, it);
    AppendNewDistinct(it + il, im);
  }

  lemma ThumbnailJpg()
    ensures Expand("thumbnail.{png,jpg}") == Expand("thumbnail.jpg") + Expand("thumbnail.png")
  {
    Rewrite2("thumbnail.{png,jpg}", "thumbnail.", "png", "jpg", "", "thumbnail.png", "thumbnail.jpg");
  }

  lemma ThumbnailJpeg()
    ensures Expand("thumbnail.{png,jpeg}") == Expand("thumbnail.jpeg") + Expand("thumbnail.png")
  {
    Rewrite2("thumbnail.{png,jpeg}", "thumbnail.", "png", "jpeg", "", "thumbnail.png", "thumbnail.jpeg");
  }

  lemma ThumbnailTop()
    ensures Expand("thumbnail.{png,jp{e,}g}") == Expand("thumbnail.{png,jpg}") + Expand("thumbnail.{png,jpeg}")
  {
    var s := "thumbnail.{png,jp{e,}g}";
    NotGroupAt(s, 10, 17);
    forall i', j' | 0 <= i' < 17
      ensures !IsGroup(s, i', j')
    {
      if i' != 10 {
        assert s[i'] != '{';
      }
    }
    Rewrite2(s, "thumbnail.{png,jp", "e", "", "g}", "thumbnail.{png,jpeg}", "thumbnail.{png,jpg}");
  }

  lemma ThumbnailLeaves()
    ensures Expand("thumbnail.jpg") == ["thumbnail.jpg"]
    ensures Expand("thumbnail.png") == ["thumbnail.png"]
    ensures Expand("thumbnail.jpeg") == ["thumbnail.jpeg"]
  {
    Leaf("thumbnail.jpg");
    Leaf("thumbnail.png");
    Leaf("thumbnail.jpeg");
  }

  lemma ThumbnailDedup()
    ensures AppendNew([], ["thumbnail.jpg", "thumbnail.png", "thumbnail.jpeg", "thumbnail.png"])
      == ["thumbnail.jpg", "thumbnail.png", "thumbnail.jpeg"]
  {
  }

  lemma ThumbnailExpand()
    ensures Expand("thumbnail.{png,jp{e,}g}") == ["thumbnail.jpg", "thumbnail.png", "thumbnail.jpeg", "thumbnail.png"]
  {
    ThumbnailTop();
    ThumbnailJpg();
    ThumbnailJpeg();
    ThumbnailLeaves();
    Leaves2("thumbnail.{png,jpg}", "thumbnail.png", "thumbnail.jpg");
    Leaves2("thumbnail.{png,jpeg}", "thumbnail.png", "thumbnail.jpeg");
    Concat2("thumbnail.{png,jp{e,}g}", "thumbnail.{png,jpg}", "thumbnail.{png,jpeg}",
            ["thumbnail.jpg", "thumbnail.png"], ["thumbnail.jpeg", "thumbnail.png"]);
  }

  /** `thumbnail.{png,jp{e,}g}` yields the three file names, the inner group
      being expanded first. */
  lemma ThumbnailExample()
    ensures ExpandBraces("thumbnail.{png,jp{e,}g}") == ["thumbnail.jpg", "thumbnail.png", "thumbnail.jpeg"]
  {
    ThumbnailExpand();
    ThumbnailDedup();
    BracesOf("thumbnail.{png,jp{e,}g}", ["thumbnail.jpg", "thumbnail.png", "thumbnail.jpeg", "thumbnail.png"],
             ["thumbnail.jpg", "thumbnail.png", "thumbnail.jpeg"]);
  }

  lemma DownloadsTopShape()
    ensures "~/{Downloads,Pictures}/*.{jpg,gif,png}" == "~/" + "{" + "Downloads" + "," + "Pictures" + "}" + "/*.{jpg,gif,png}"
  {
  }

  lemma DownloadsChildShapes()
    ensures "~/Downloads/*.{jpg,gif,png}" == "~/" + "Downloads" + "/*.{jpg,gif,png}"
    ensures "~/Pictures/*.{jpg,gif,png}" == "~/" + "Pictures" + "/*.{jpg,gif,png}"
  {
  }

  lemma DownloadsTop()
    ensures Expand("~/{Downloads,Pictures}/*.{jpg,gif,png}")
      == Expand("~/Pictures/*.{jpg,gif,png}") + Expand("~/Downloads/*.{jpg,gif,png}")
  {
    var s := "~/{Downloads,Pictures}/*.{jpg,gif,png}";
    DownloadsTopShape();
    DownloadsChildShapes();
    forall i', j' | 0 <= i' < 2
      ensures !IsGroup(s, i', j')
    {
      assert s[i'] != '{';
    }
    Rewrite2(s, "~/", "Downloads", "Pictures", "/*.{jpg,gif,png}",
             "~/Downloads/*.{jpg,gif,png}", "~/Pictures/*.{jpg,gif,png}");
  }

  lemma DownloadsPictures()
    ensures Expand("~/Pictures/*.{jpg,gif,png}")
      == Expand("~/Pictures/*.png") + Expand("~/Pictures/*.gif") + Expand("~/Pictures/*.jpg")
  {
    Rewrite3("~/Pictures/*.{jpg,gif,png}", "~/Pictures/*.", "jpg", "gif", "png", "",
             "~/Pictures/*.jpg", "~/Pictures/*.gif", "~/Pictures/*.png");
  }

  lemma DownloadsDownloads()
    ensures Expand("~/Downloads/*.{jpg,gif,png}")
      == Expand("~/Downloads/*.png") + Expand("~/Downloads/*.gif") + Expand("~/Downloads/*.jpg")
  {
    Rewrite3("~/Downloads/*.{jpg,gif,png}", "~/Downloads/*.", "jpg", "gif", "png", "",
             "~/Downloads/*.jpg", "~/Downloads/*.gif", "~/Downloads/*.png");
  }

  lemma PicturesLeaves()
    ensures Expand("~/Pictures/*.png") == ["~/Pictures/*.png"]
    ensures Expand("~/Pictures/*.gif") == ["~/Pictures/*.gif"]
    ensures Expand("~/Pictures/*.jpg") == ["~/Pictures/*.jpg"]
  {
    Leaf("~/Pictures/*.png");
    Leaf("~/Pictures/*.gif");
    Leaf("~/Pictures/*.jpg");
  }

  lemma DownloadsLeaves()
    ensures Expand("~/Downloads/*.png") == ["~/Downloads/*.png"]
    ensures Expand("~/Downloads/*.gif") == ["~/Downloads/*.gif"]
    ensures Expand("~/Downloads/*.jpg") == ["~/Downloads/*.jpg"]
  {
    Leaf("~/Downloads/*.png");
    Leaf("~/Downloads/*.gif");
    Leaf("~/Downloads/*.jpg");
  }

  lemma PicturesExpand()
    ensures Expand("~/Pictures/*.{jpg,gif,png}") == ["~/Pictures/*.png", "~/Pictures/*.gif", "~/Pictures/*.jpg"]
  {
    DownloadsPictures();
    PicturesLeaves();
    Leaves3("~/Pictures/*.{jpg,gif,png}", "~/Pictures/*.jpg", "~/Pictures/*.gif", "~/Pictures/*.png");
  }

  lemma DownloadsDownloadsExpand()
    ensures Expand("~/Downloads/*.{jpg,gif,png}") == ["~/Downloads/*.png", "~/Downloads/*.gif", "~/Downloads/*.jpg"]
  {
    DownloadsDownloads();
    DownloadsLeaves();
    Leaves3("~/Downloads/*.{jpg,gif,png}", "~/Downloads/*.jpg", "~/Downloads/*.gif", "~/Downloads/*.png");
  }

  lemma DownloadsHalf()
    ensures Expand("~/{Downloads,Pictures}/*.{jpg,gif,png}")
      == ["~/Pictures/*.png", "~/Pictures/*.gif", "~/Pictures/*.jpg"] + Expand("~/Downloads/*.{jpg,gif,png}")
  {
    DownloadsTop();
    PicturesExpand();
  }

  lemma DownloadsExpand()
    ensures Expand("~/{Downloads,Pictures}/*.{jpg,gif,png}")
      == ["~/Pictures/*.png", "~/Pictures/*.gif", "~/Pictures/*.jpg"]
       + ["~/Downloads/*.png", "~/Downloads/*.gif", "~/Downloads/*.jpg"]
  {
    DownloadsHalf();
    DownloadsDownloadsExpand();
  }

  lemma DownloadsDistinct()
    ensures Distinct(["~/Pictures/*.png", "~/Pictures/*.gif", "~/Pictures/*.jpg"]
                   + ["~/Downloads/*.png", "~/Downloads/*.gif", "~/Downloads/*.jpg"])
  {
    var xs := ["~/Pictures/*.png", "~/Pictures/*.gif", "~/Pictures/*.jpg"]
            + ["~/Downloads/*.png", "~/Downloads/*.gif", "~/Downloads/*.jpg"];
    forall a, b | 0 <= a < b < 6
      ensures xs[a] != xs[b]
    {
      if xs[a][2] == xs[b][2] {
        assert xs[a][|xs[a]| - 3] != xs[b][|xs[b]| - 3];
      }
    }
  }

  lemma DownloadsDedup()
    ensures AppendNew([], ["~/Pictures/*.png", "~/Pictures/*.gif", "~/Pictures/*.jpg"]
                        + ["~/Downloads/*.png", "~/Downloads/*.gif", "~/Downloads/*.jpg"])
      == ["~/Pictures/*.png", "~/Pictures/*.gif", "~/Pictures/*.jpg"]
       + ["~/Downloads/*.png", "~/Downloads/*.gif", "~/Downloads/*.jpg"]
  {
    var xs := ["~/Pictures/*.png", "~/Pictures/*.gif", "~/Pictures/*.jpg"]
            + ["~/Downloads/*.png", "~/Downloads/*.gif", "~/Downloads/*.jpg"];
    DownloadsDistinct();
    assert [] + xs == xs;
    AppendNewDistinct([], xs);
  }

  /** The two groups multiply out to six paths, every one of them new: the
      last alternative of the first group is expanded first. */
  lemma DownloadsExample()
    ensures ExpandBraces("~/{Downloads,Pictures}/*.{jpg,gif,png}")
      == ["~/Pictures/*.png", "~/Pictures/*.gif", "~/Pictures/*.jpg"]
       + ["~/Downloads/*.png", "~/Downloads/*.gif", "~/Downloads/*.jpg"]
  {
    DownloadsExpand();
    DownloadsDedup();
    BracesOf("~/{Downloads,Pictures}/*.{jpg,gif,png}",
             ["~/Pictures/*.png", "~/Pictures/*.gif", "~/Pictures/*.jpg"]
           + ["~/Downloads/*.png", "~/Downloads/*.gif", "~/Downloads/*.jpg"],
             ["~/Pictures/*.png", "~/Pictures/*.gif", "~/Pictures/*.jpg"]
           + ["~/Downloads/*.png", "~/Downloads/*.gif", "~/Downloads/*.jpg"]);
  }

  lemma ItemizedShape()
    ensures "It{{em,alic}iz,erat}e{d,}, please." == "It{" + "{" + "em" + "," + "alic" + "}" + "iz,erat}e{d,}, please."
  {
  }

  lemma ItemizedEmShape()
    ensures "It{emiz,erat}e{d,}, please." == "It{" + "em" + "iz,erat}e{d,}, please."
  {
  }

  lemma ItemizedAlicShape()
    ensures "It{aliciz,erat}e{d,}, please." == "It{" + "alic" + "iz,erat}e{d,}, please."
  {
  }

  lemma ItemizedTop()
    ensures Expand("It{{em,alic}iz,erat}e{d,}, please.") == Expand("It{aliciz,erat}e{d,}, please.") + Expand("It{emiz,erat}e{d,}, please.")
  {
    var s := "It{{em,alic}iz,erat}e{d,}, please.";
    ItemizedShape();
    ItemizedEmShape();
    ItemizedAlicShape();
    NotGroupAt(s, 2, 3);
    forall i', j' | 0 <= i' < 3
      ensures !IsGroup(s, i', j')
    {
      if i' < 2 {
        assert s[i'] != '{';
      }
    }
    Rewrite2(s, "It{", "em", "alic", "iz,erat}e{d,}, please.", "It{emiz,erat}e{d,}, please.", "It{aliciz,erat}e{d,}, please.");
  }

  lemma EmizShape()
    ensures "It{emiz,erat}e{d,}, please." == "It" + "{" + "emiz" + "," + "erat" + "}" + "e{d,}, please."
  {
  }

  lemma AlicizShape()
    ensures "It{aliciz,erat}e{d,}, please." == "It" + "{" + "aliciz" + "," + "erat" + "}" + "e{d,}, please."
  {
  }

  lemma StemShapes()
    ensures "Itemize{d,}, please." == "It" + "emiz" + "e{d,}, please."
    ensures "Italicize{d,}, please." == "It" + "aliciz" + "e{d,}, please."
    ensures "Iterate{d,}, please." == "It" + "erat" + "e{d,}, please."
  {
  }

  lemma ItemizedEm()
    ensures Expand("It{emiz,erat}e{d,}, please.") == Expand("Iterate{d,}, please.") + Expand("Itemize{d,}, please.")
  {
    var s := "It{emiz,erat}e{d,}, please.";
    EmizShape();
    StemShapes();
    forall i', j' | 0 <= i' < 2
      ensures !IsGroup(s, i', j')
    {
      assert s[i'] != '{';
    }
    Rewrite2(s, "It", "emiz", "erat", "e{d,}, please.", "Itemize{d,}, please.", "Iterate{d,}, please.");
  }

  lemma ItemizedAlic()
    ensures Expand("It{aliciz,erat}e{d,}, please.") == Expand("Iterate{d,}, please.") + Expand("Italicize{d,}, please.")
  {
    var s := "It{aliciz,erat}e{d,}, please.";
    AlicizShape();
    StemShapes();
    forall i', j' | 0 <= i' < 2
      ensures !IsGroup(s, i', j')
    {
      assert s[i'] != '{';
    }
    Rewrite2(s, "It", "aliciz", "erat", "e{d,}, please.", "Italicize{d,}, please.", "Iterate{d,}, please.");
  }

  lemma IterateLeaves()
    ensures Expand("Iterate{d,}, please.") == ["Iterate, please.", "Iterated, please."]
  {
    var stem, tail, dtail := "Iterate", ", please.", "d, please.";
    assert stem + "{d,}" + tail == "Iterate{d,}, please.";
    assert stem + tail == "Iterate, please." && stem + dtail == "Iterated, please.";
    Suffix(stem, tail, dtail);
  }

  lemma ItalicizeLeaves()
    ensures Expand("Italicize{d,}, please.") == ["Italicize, please.", "Italicized, please."]
  {
    var stem, tail, dtail := "Italicize", ", please.", "d, please.";
    assert stem + "{d,}" + tail == "Italicize{d,}, please.";
    assert stem + tail == "Italicize, please." && stem + dtail == "Italicized, please.";
    Suffix(stem, tail, dtail);
  }

  lemma ItemizeLeaves()
    ensures Expand("Itemize{d,}, please.") == ["Itemize, please.", "Itemized, please."]
  {
    var stem, tail, dtail := "Itemize", ", please.", "d, please.";
    assert stem + "{d,}" + tail == "Itemize{d,}, please.";
    assert stem + tail == "Itemize, please." && stem + dtail == "Itemized, please.";
    Suffix(stem, tail, dtail);
  }

  lemma ItemizedExpand()
    ensures Expand("It{{em,alic}iz,erat}e{d,}, please.") == (["Iterate, please.", "Iterated, please."] + ["Italicize, please.", "Italicized, please."]) + (["Iterate, please.", "Iterated, please."] + ["Itemize, please.", "Itemized, please."])
  {
    ItemizedTop();
    ItemizedEm();
    ItemizedAlic();
    IterateLeaves();
    ItalicizeLeaves();
    ItemizeLeaves();
  }

  lemma ItemizedDistinct()
    ensures Distinct(["Iterate, please.", "Iterated, please."] + ["Italicize, please.", "Italicized, please."] + ["Itemize, please.", "Itemized, please."])
  {
    var xs := ["Iterate, please.", "Iterated, please."] + ["Italicize, please.", "Italicized, please."] + ["Itemize, please.", "Itemized, please."];
    forall a, b | 0 <= a < b < 6
      ensures xs[a] != xs[b]
    {
      if xs[a][3] == xs[b][3] {
        assert |xs[a]| != |xs[b]|;
      }
    }
  }

  lemma ItemizedDedup()
    ensures AppendNew([], (["Iterate, please.", "Iterated, please."] + ["Italicize, please.", "Italicized, please."]) + (["Iterate, please.", "Iterated, please."] + ["Itemize, please.", "Itemized, please."])) == ["Iterate, please.", "Iterated, please."] + ["Italicize, please.", "Italicized, please."] + ["Itemize, please.", "Itemized, please."]
  {
    ItemizedDistinct();
    DedupRepeat(["Iterate, please.", "Iterated, please."], ["Italicize, please.", "Italicized, please."], ["Itemize, please.", "Itemized, please."]);
  }

  /** Nested groups: the inner group is rewritten first, and the spelling
      reached along two paths ("Iterate", "Iterated") is yielded once. */
  lemma ItemizedExample()
    ensures ExpandBraces("It{{em,alic}iz,erat}e{d,}, please.") == ["Iterate, please.", "Iterated, please."] + ["Italicize, please.", "Italicized, please."] + ["Itemize, please.", "Itemized, please."]
  {
    ItemizedExpand();
    ItemizedDedup();
    BracesOf("It{{em,alic}iz,erat}e{d,}, please.", (["Iterate, please.", "Iterated, please."] + ["Italicize, please.", "Italicized, please."]) + (["Iterate, please.", "Iterated, please."] + ["Itemize, please.", "Itemized, please."]), ["Iterate, please.", "Iterated, please."] + ["Italicize, please.", "Italicized, please."] + ["Itemize, please.", "Itemized, please."]);
  }

  /** A string without braces is its own single expansion. */
  lemma NothingToDoExample()
    ensures ExpandBraces("nothing to do") == ["nothing to do"]
  {
    NoOpenNoGroup("nothing to do");
  }
}
