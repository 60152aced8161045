/**
 How a multimodal LLM task gets its embeddings: one encoder call for each content, or one for each
 modality whose results are dealt out again in the order of the contents.
*/
module MllmEncoders {
  import opened Sequences

  datatype Modality = Image | Video | Audio

  type Url = int

  type Embedding = int

  datatype Content = Content(modality: Modality, url: Url)

  /** What an encoder makes of a URL; a call returns one embedding for each URL, in order. */
  type Encoder = (Modality, Url) -> Embedding

  datatype EncoderCall = EncoderCall(modality: Modality, urls: seq<Url>)

  datatype Result = Ok(embeddings: seq<Embedding>) | ValueError | KeyError | IndexError

  /** The embeddings that the LLM needs: the i-th one encodes the i-th content. */
  function Wanted(encode: Encoder, contents: seq<Content>): (r: seq<Embedding>)
    ensures |r| == |contents|
    ensures forall i :: 0 <= i < |r| ==> r[i] == encode(contents[i].modality, contents[i].url)
  {
    seq(|contents|, i requires 0 <= i < |contents| => encode(contents[i].modality, contents[i].url))
  }

  /** The URLs of one modality among the contents from the `k`-th on, in order. */
  function UrlsFrom(contents: seq<Content>, k: nat, m: Modality): seq<Url>
    requires k <= |contents|
    decreases |contents| - k
  {
    if k == |contents| then [] else UrlAt(contents, k, m) + UrlsFrom(contents, k + 1, m)
  }

  function UrlAt(contents: seq<Content>, k: nat, m: Modality): seq<Url>
    requires k < |contents|
  {
    if contents[k].modality == m then [contents[k].url] else []
  }

  function UrlsOf(contents: seq<Content>, m: Modality): seq<Url> {
    UrlsFrom(contents, 0, m)
  }

  function EncodeAll(encode: Encoder, m: Modality, urls: seq<Url>): (r: seq<Embedding>)
    ensures |r| == |urls|
  {
    seq(|urls|, i requires 0 <= i < |urls| => encode(m, urls[i]))
  }

  predicate AllListed(contents: seq<Content>, modalities: set<Modality>) {
    forall c :: c in contents ==> c.modality in modalities
  }

  lemma {:induction false} UrlsPresent(contents: seq<Content>, k: nat, m: Modality)
    requires k <= |contents|
    ensures UrlsFrom(contents, k, m) != [] <==> exists i :: k <= i < |contents| && contents[i].modality == m
    decreases |contents| - k
  {
    if k < |contents| {
      UrlsPresent(contents, k + 1, m);
      assert UrlsFrom(contents, k, m) == UrlAt(contents, k, m) + UrlsFrom(contents, k + 1, m);
      assert contents[k].modality == m || UrlAt(contents, k, m) == [];
    }
  }

  lemma UrlsMember(contents: seq<Content>, m: Modality)
    ensures UrlsOf(contents, m) != [] <==> exists c :: c in contents && c.modality == m
  {
    UrlsPresent(contents, 0, m);
    if c :| c in contents && c.modality == m {
      var i :| 0 <= i < |contents| && contents[i] == c;
      assert contents[i].modality == m;
    }
  }

  /** EncoderTask.invoke with its check of the input. */
  method InvokeEncoder(encode: Encoder, m: Modality, urls: seq<Url>, modelOk: bool) returns (r: Result)
    ensures r == if urls == [] || !modelOk then ValueError else Ok(EncodeAll(encode, m, urls))
  {
    if urls == [] || !modelOk {
      return ValueError;
    }
    r := Ok(EncodeAll(encode, m, urls));
  }

  /** The URLs by modality, and whether the task lists all of these. */
  method Group(contents: seq<Content>) returns (urls: map<Modality, seq<Url>>)
    ensures forall m :: m in urls <==> UrlsOf(contents, m) != []
    ensures forall m :: m in urls ==> urls[m] == UrlsOf(contents, m)
  {
    urls := map[];
    for i := 0 to |contents|
      invariant forall m {:trigger Grouped(urls, contents, i, m)} :: Grouped(urls, contents, i, m)
    {
      var c := contents[i];
      GroupStep(urls, contents, i);
      urls := urls[c.modality := So(urls, c.modality) + [c.url]];
    }
    AllGrouped(urls, contents);
  }

  function So(urls: map<Modality, seq<Url>>, m: Modality): seq<Url> {
    if m in urls then urls[m] else []
  }

  /** What has been collected, together with what is still to come, are the URLs of the modality. */
  ghost predicate Grouped(urls: map<Modality, seq<Url>>, contents: seq<Content>, i: nat, m: Modality)
    requires i <= |contents|
  {
    So(urls, m) + UrlsFrom(contents, i, m) == UrlsOf(contents, m) && (m in urls ==> urls[m] != [])
  }

  lemma GroupStep(urls: map<Modality, seq<Url>>, contents: seq<Content>, i: nat)
    requires i < |contents| && forall m {:trigger Grouped(urls, contents, i, m)} :: Grouped(urls, contents, i, m)
    ensures var c, n := contents[i], i + 1;
            var urls' := urls[c.modality := So(urls, c.modality) + [c.url]];
            forall m {:trigger Grouped(urls', contents, n, m)} :: Grouped(urls', contents, n, m)
  {
    var c, n := contents[i], i + 1;
    var urls' := urls[c.modality := So(urls, c.modality) + [c.url]];
    forall m ensures Grouped(urls', contents, n, m) {
      assert Grouped(urls, contents, i, m);
      NextUrl(urls, contents, i, m);
      Assoc(So(urls, m), UrlAt(contents, i, m), UrlsFrom(contents, n, m));
    }
  }

  lemma NextUrl(urls: map<Modality, seq<Url>>, contents: seq<Content>, i: nat, m: Modality)
    requires i < |contents|
    ensures So(urls[contents[i].modality := So(urls, contents[i].modality) + [contents[i].url]], m) == So(urls, m)
              + UrlAt(contents, i, m)
  {
  }

  lemma AllGrouped(urls: map<Modality, seq<Url>>, contents: seq<Content>)
    requires forall m {:trigger Grouped(urls, contents, |contents|, m)} :: Grouped(urls, contents, |contents|, m)
    ensures forall m :: m in urls <==> UrlsOf(contents, m) != []
    ensures forall m :: m in urls ==> urls[m] == UrlsOf(contents, m)
  {
    forall m ensures (m in urls <==> UrlsOf(contents, m) != []) && (m in urls ==> urls[m] == UrlsOf(contents, m)) {
      assert Grouped(urls, contents, |contents|, m);
    }
  }

  /** The encoder part of MLLMTask.invoke; `encoders` are the task's modalities, each once. */
  method Embeddings(encode: Encoder, encoders: seq<Modality>, coalesce: bool, modelOk: bool, contents: seq<Content>)
    returns (r: Result, calls: seq<EncoderCall>)
    requires forall i, j :: 0 <= i < j < |encoders| ==> encoders[i] != encoders[j]
    ensures r == if AllListed(contents, SetOf(encoders)) && (modelOk || contents == [])
                 then Ok(Wanted(encode, contents)) else ValueError
    ensures coalesce ==> forall i, j :: 0 <= i < j < |calls| ==> calls[i].modality != calls[j].modality
    ensures coalesce && r.Ok? ==> forall c :: c in contents ==>
              EncoderCall(c.modality, UrlsOf(contents, c.modality)) in calls
    ensures coalesce ==> forall i {:trigger calls[i]} :: 0 <= i < |calls| ==>
              calls[i].urls == UrlsOf(contents, calls[i].modality) != []
    ensures !coalesce && r.Ok? ==> calls == Singles(contents)
  {
    var urls := Group(contents);
    forall m ensures m in urls <==> exists c :: c in contents && c.modality == m {
      UrlsMember(contents, m);
    }
    calls := [];
    if exists m :: m in urls && m !in encoders {
      return ValueError, [];
    }
    assert AllListed(contents, SetOf(encoders)) by {
      forall c | c in contents ensures c.modality in SetOf(encoders) { assert c.modality in urls; }
    }
    if coalesce {
      r, calls := Coalesced(encode, encoders, modelOk, contents, urls);
    } else {
      r, calls := Separate(encode, encoders, modelOk, contents);
    }
  }

  function SetOf(encoders: seq<Modality>): set<Modality> { set m | m in encoders }

  function Singles(contents: seq<Content>): (r: seq<EncoderCall>)
    ensures |r| == |contents|
  {
    seq(|contents|, i requires 0 <= i < |contents| => EncoderCall(contents[i].modality, [contents[i].url]))
  }

  /** One call for each content. */
  method Separate(encode: Encoder, encoders: seq<Modality>, modelOk: bool, contents: seq<Content>)
    returns (r: Result, calls: seq<EncoderCall>)
    requires AllListed(contents, SetOf(encoders))
    ensures r == if modelOk || contents == [] then Ok(Wanted(encode, contents)) else ValueError
    ensures r.Ok? ==> calls == Singles(contents)
  {
    var embeddings: seq<Embedding> := [];
    calls := [];
    for i := 0 to |contents|
      invariant embeddings == Wanted(encode, contents[..i]) && calls == Singles(contents[..i])
      invariant i > 0 ==> modelOk
    {
      var c := contents[i];
      assert c in contents;
      if c.modality !in encoders {
        return KeyError, calls;
      }
      var output := InvokeEncoder(encode, c.modality, [c.url], modelOk);
      if !output.Ok? {
        return output, calls;
      }
      calls := calls + [EncoderCall(c.modality, [c.url])];
      embeddings := embeddings + [output.embeddings[0]];
    }
    assert contents[..|contents|] == contents;
    r := Ok(embeddings);
  }

  ghost predicate AllEncoded(encode: Encoder, urls: map<Modality, seq<Url>>, outputs: map<Modality, seq<Embedding>>) {
    forall m {:trigger outputs[m]} :: m in outputs ==> m in urls && outputs[m] == EncodeAll(encode, m, urls[m])
  }

  /** Every call is for the URLs of a modality that occurs. */
  ghost predicate AllUseful(urls: map<Modality, seq<Url>>, calls: seq<EncoderCall>) {
    forall i {:trigger calls[i]} :: 0 <= i < |calls| ==>
      calls[i].modality in urls && calls[i].urls == urls[calls[i].modality]
  }

  /** One call for each modality in `called`, which are the `tried` ones that occur. */
  ghost predicate CallsAre(urls: map<Modality, seq<Url>>, called: set<Modality>, calls: seq<EncoderCall>,
          tried: set<Modality>) {
    && called == urls.Keys * tried && AllUseful(urls, calls)
    && (forall m :: m in called ==> EncoderCall(m, urls[m]) in calls)
    && (forall i {:trigger calls[i]} :: 0 <= i < |calls| ==> calls[i].modality in tried)
    && forall i, j {:trigger calls[i], calls[j]} :: 0 <= i < j < |calls| ==> calls[i].modality != calls[j].modality
  }

  lemma CallsGrow(urls: map<Modality, seq<Url>>, called: set<Modality>, calls: seq<EncoderCall>, tried: set<Modality>,
          m: Modality)
    requires CallsAre(urls, called, calls, tried) && m !in tried
    ensures m in urls ==> CallsAre(urls, called + {m}, calls + [EncoderCall(m, urls[m])], tried + {m})
    ensures m !in urls ==> CallsAre(urls, called, calls, tried + {m})
  {
    if m in urls {
      var calls' := calls + [EncoderCall(m, urls[m])];
      assert calls'[|calls|] == EncoderCall(m, urls[m]);
    }
  }

  /** The call for one modality, if it occurs. */
  method CallNext(encode: Encoder, m: Modality, modelOk: bool, urls: map<Modality, seq<Url>>,
          outputs: map<Modality, seq<Embedding>>, calls: seq<EncoderCall>, ghost tried: set<Modality>)
    returns (ok: bool, outputs': map<Modality, seq<Embedding>>, calls': seq<EncoderCall>)
    requires m !in tried && (m in urls ==> urls[m] != [])
    requires AllEncoded(encode, urls, outputs) && CallsAre(urls, outputs.Keys, calls, tried)
    ensures ok <==> modelOk || m !in urls
    ensures ok ==> AllEncoded(encode, urls, outputs') && CallsAre(urls, outputs'.Keys, calls', tried + {m})
    ensures !ok ==> calls' == calls
  {
    CallsGrow(urls, outputs.Keys, calls, tried, m);
    ok, outputs', calls' := true, outputs, calls;
    if m in urls {
      var output := InvokeEncoder(encode, m, urls[m], modelOk);
      if !output.Ok? {
        return false, outputs, calls;
      }
      outputs', calls' := outputs[m := output.embeddings], calls + [EncoderCall(m, urls[m])];
    }
  }

  /** One call for each modality that occurs. */
  method CallEncoders(encode: Encoder, encoders: seq<Modality>, modelOk: bool, urls: map<Modality, seq<Url>>)
    returns (ok: bool, outputs: map<Modality, seq<Embedding>>, calls: seq<EncoderCall>)
    requires forall i, j :: 0 <= i < j < |encoders| ==> encoders[i] != encoders[j]
    requires forall m :: m in urls ==> m in encoders && urls[m] != []
    ensures ok <==> modelOk || urls == map[]
    ensures ok ==> outputs.Keys == urls.Keys && AllEncoded(encode, urls, outputs)
    ensures ok ==> forall m :: m in urls ==> EncoderCall(m, urls[m]) in calls
    ensures AllUseful(urls, calls)
    ensures forall i, j :: 0 <= i < j < |calls| ==> calls[i].modality != calls[j].modality
  {
    outputs, calls := map[], [];
    for k := 0 to |encoders|
      invariant AllEncoded(encode, urls, outputs) && CallsAre(urls, outputs.Keys, calls, Firsts(encoders, k))
      invariant modelOk || urls.Keys * Firsts(encoders, k) == {}
    {
      FirstsAre(encoders, k, encoders[k]);
      ok, outputs, calls := CallNext(encode, encoders[k], modelOk, urls, outputs, calls, Firsts(encoders, k));
      if !ok {
        return;
      }
    }
    ok := true;
    AllTried(encoders, urls);
  }

  lemma AllTried(encoders: seq<Modality>, urls: map<Modality, seq<Url>>)
    requires forall m :: m in urls ==> m in encoders
    ensures urls.Keys * Firsts(encoders, |encoders|) == urls.Keys
  {
    forall m | m in urls ensures m in Firsts(encoders, |encoders|) { FirstsAre(encoders, |encoders|, m); }
  }

  /** The queues hold what the contents from the `k`-th on still need. */
  ghost predicate QueuesAre(encode: Encoder, outputs: map<Modality, seq<Embedding>>, contents: seq<Content>, k: nat)
    requires k <= |contents|
  {
    && (forall i {:trigger contents[i]} :: k <= i < |contents| ==> contents[i].modality in outputs)
    && forall m {:trigger QueueIs(encode, outputs, contents, k, m)} :: QueueIs(encode, outputs, contents, k, m)
  }

  ghost predicate QueueIs(encode: Encoder, outputs: map<Modality, seq<Embedding>>, contents: seq<Content>, k: nat,
          m: Modality)
    requires k <= |contents|
  {
    m in outputs ==> outputs[m] == EncodeAll(encode, m, UrlsFrom(contents, k, m))
  }

  method Coalesced(encode: Encoder, encoders: seq<Modality>, modelOk: bool, contents: seq<Content>,
          urls: map<Modality, seq<Url>>)
    returns (r: Result, calls: seq<EncoderCall>)
    requires forall i, j :: 0 <= i < j < |encoders| ==> encoders[i] != encoders[j]
    requires forall m :: m in urls <==> UrlsOf(contents, m) != []
    requires forall m :: m in urls ==> urls[m] == UrlsOf(contents, m) && m in encoders
    ensures r == if modelOk || contents == [] then Ok(Wanted(encode, contents)) else ValueError
    ensures r.Ok? ==> forall c :: c in contents ==> EncoderCall(c.modality, UrlsOf(contents, c.modality)) in calls
    ensures forall i {:trigger calls[i]} :: 0 <= i < |calls| ==>
              calls[i].urls == UrlsOf(contents, calls[i].modality) != []
    ensures forall i, j :: 0 <= i < j < |calls| ==> calls[i].modality != calls[j].modality
  {
    forall m ensures m in urls <==> exists c :: c in contents && c.modality == m {
      UrlsMember(contents, m);
    }
    var ok, outputs;
    ok, outputs, calls := CallEncoders(encode, encoders, modelOk, urls);
    if contents != [] { assert contents[0].modality in urls; }
    if !ok {
      return ValueError, calls;
    }
    forall m ensures QueueIs(encode, outputs, contents, 0, m) {}
    var left;
    r, left := DealOut(encode, outputs, contents);
  }

  /** Each content takes the first embedding that is left of its modality; every queue ends empty. */
  method DealOut(encode: Encoder, queues: map<Modality, seq<Embedding>>, contents: seq<Content>)
    returns (r: Result, outputs: map<Modality, seq<Embedding>>)
    requires QueuesAre(encode, queues, contents, 0)
    ensures r == Ok(Wanted(encode, contents))
    ensures outputs.Keys == queues.Keys && forall m :: m in outputs ==> outputs[m] == []
  {
    var embeddings: seq<Embedding> := [];
    outputs := queues;
    for i := 0 to |contents|
      invariant outputs.Keys == queues.Keys && QueuesAre(encode, outputs, contents, i)
      invariant |embeddings| == i && forall j :: 0 <= j < i ==>
                  embeddings[j] == encode(contents[j].modality, contents[j].url)
    {
      var m := contents[i].modality;
      PopStep(encode, outputs, contents, i);
      if m !in outputs {
        return KeyError, outputs;
      }
      if outputs[m] == [] {
        return IndexError, outputs;
      }
      embeddings := embeddings + [outputs[m][0]];
      outputs := outputs[m := outputs[m][1..]];
    }
    NothingLeft(encode, outputs, contents);
    assert embeddings == Wanted(encode, contents);
    r := Ok(embeddings);
  }

  lemma NothingLeft(encode: Encoder, outputs: map<Modality, seq<Embedding>>, contents: seq<Content>)
    requires QueuesAre(encode, outputs, contents, |contents|)
    ensures forall m :: m in outputs ==> outputs[m] == []
  {
    forall m | m in outputs ensures outputs[m] == [] {
      assert QueueIs(encode, outputs, contents, |contents|, m);
    }
  }

  /** Taking the first embedding of the next content's modality serves that content and leaves the rest. */
  lemma PopStep(encode: Encoder, outputs: map<Modality, seq<Embedding>>, contents: seq<Content>, k: nat)
    requires k < |contents| && QueuesAre(encode, outputs, contents, k)
    ensures var c := contents[k];
            && c.modality in outputs && outputs[c.modality] != [] && outputs[c.modality][0] == encode(c.modality, c.url)
            && QueuesAre(encode, outputs[c.modality := outputs[c.modality][1..]], contents, k + 1)
  {
    var c := contents[k];
    assert QueueIs(encode, outputs, contents, k, c.modality);
    EncodeCons(encode, c.modality, c.url, UrlsFrom(contents, k + 1, c.modality));
    var outputs', n := outputs[c.modality := outputs[c.modality][1..]], k + 1;
    forall m ensures QueueIs(encode, outputs', contents, n, m) {
      assert QueueIs(encode, outputs, contents, k, m);
      if m != c.modality { assert [] + UrlsFrom(contents, n, m) == UrlsFrom(contents, n, m); }
    }
  }

  lemma EncodeCons(encode: Encoder, m: Modality, url: Url, urls: seq<Url>)
    ensures var r := EncodeAll(encode, m, [url] + urls); r[0] == encode(m, url) && r[1..] == EncodeAll(encode, m, urls)
  {
  }
}
