/** Decoding with a local model: the prompt in batches, then one sampled token at a time. */
module GgufDecoding {
  const CONTEXT_TOKENS := 8_192
  const PROMPT_BATCH_TOKENS := 512
  const MAX_GENERATED_TOKENS := 4_096
  const MAX_WORKER_OUTPUT_BYTES := 10_000_000
  const MAX_I32 := 0x7FFF_FFFF

  type Token = int
  type Bytes = seq<bv8>

  /** What the text decoder flushes: the buffer for it holds four bytes. */
  const MAX_FLUSH := 4

  type Flush = bytes: Bytes | |bytes| <= MAX_FLUSH witness []

  /** One token handed to the context; logits says whether its output is asked for. */
  datatype Feed = Feed(token: Token, position: nat, logits: bool)

  type Batch = seq<Feed>

  datatype Piece = Text(bytes: Bytes) | UnknownToken | Unreadable

  /** The model: what it samples after the decoded feeds, which tokens end the generation, whether it
      decodes the last of the given batches, the text of the last of the given tokens, and what the text
      decoder still holds after them. */
  datatype Model = Model(sample: seq<Feed> -> Token, ends: Token -> bool, decodes: seq<Batch> -> bool,
                         piece: seq<Token> -> Piece, tail: seq<Token> -> Flush)

  datatype Failure = EmptyPrompt | PromptTooLong | PromptNotDecoded | TokenNotDecoded | TextNotDecoded | OutputTooLarge

  datatype Result = Done(output: Bytes) | Err(failure: Failure)

  // ---------------------------------------------------------------------- reference

  /** The feeds of a prompt of n tokens and what follows it: positions without gap or repeat, and an output
      asked for from the last prompt token on. */
  function Feeds(tokens: seq<Token>, n: nat): seq<Feed> {
    seq(|tokens|, i requires 0 <= i < |tokens| => Feed(tokens[i], i, i + 1 >= n))
  }

  function Limit(prompt: seq<Token>): nat {
    var available := if |prompt| <= CONTEXT_TOKENS then CONTEXT_TOKENS - |prompt| else 0;
    if available < MAX_GENERATED_TOKENS then available else MAX_GENERATED_TOKENS
  }

  /** Plain generation: each token is sampled after the whole prompt and all tokens before it, up to the
      first one that ends the generation, or up to the limit. */
  function Generate(model: Model, prompt: seq<Token>, sampled: seq<Token>): seq<Token>
    decreases Limit(prompt) - |sampled|
  {
    if |sampled| >= Limit(prompt) then sampled
    else
      var token := model.sample(Feeds(prompt + sampled, |prompt|));
      if model.ends(token) then sampled + [token] else Generate(model, prompt, sampled + [token])
  }

  function TextOf(model: Model, sampled: seq<Token>): Bytes {
    if sampled == [] then []
    else
      var before := TextOf(model, sampled[..|sampled| - 1]);
      if model.ends(sampled[|sampled| - 1]) then before
      else
        match model.piece(sampled)
        case Text(bytes) => before + bytes
        case UnknownToken => before
        case Unreadable => before
  }

  /** A token of unknown type contributes nothing. */
  function PieceText(piece: Piece): Bytes { if piece.Text? then piece.bytes else [] }

  function Flatten(batches: seq<Batch>): seq<Feed> {
    if batches == [] then [] else Flatten(batches[..|batches| - 1]) + batches[|batches| - 1]
  }

  /** Plain generation stops at the limit or at the first token that ends it, and the tokens it samples
      are those the model gives after everything before them. */
  lemma {:induction false} GenerationIsAutoregressive(model: Model, prompt: seq<Token>, sampled: seq<Token>)
    requires |sampled| <= Limit(prompt)
    ensures var g := Generate(model, prompt, sampled);
      && sampled <= g && |g| <= Limit(prompt)
      && (forall i :: |sampled| <= i < |g| ==> g[i] == model.sample(Feeds(prompt + g[..i], |prompt|)))
      && (forall i :: |sampled| <= i < |g| - 1 ==> !model.ends(g[i]))
      && (|g| < Limit(prompt) ==> |g| > |sampled| && model.ends(g[|g| - 1]))
    decreases Limit(prompt) - |sampled|
  {
    if |sampled| < Limit(prompt) {
      var token := model.sample(Feeds(prompt + sampled, |prompt|));
      var g := Generate(model, prompt, sampled);
      if model.ends(token) {
        assert g[..|sampled|] == sampled;
      } else {
        GenerationIsAutoregressive(model, prompt, sampled + [token]);
        assert g[|sampled|] == (sampled + [token])[|sampled|] == token;
        assert g[..|sampled|] == sampled;
      }
    }
  }

  /** Every position lies inside the context, positions count up from 0, and an output is asked for the
      last prompt token and each fed generated token, and for nothing else. */
  lemma PositionsAreContiguous(model: Model, prompt: seq<Token>, batches: seq<Batch>, sampled: seq<Token>, i: nat)
    requires 0 < |prompt| < CONTEXT_TOKENS && sampled == Generate(model, prompt, []) != []
      && i < |prompt| + |sampled| - 1
    requires Fed(batches, prompt + sampled[..|sampled| - 1], |prompt|)
    ensures |sampled| <= MAX_GENERATED_TOKENS && |Flatten(batches)| == |prompt| + |sampled| - 1 < CONTEXT_TOKENS
    ensures var feed := Flatten(batches)[i];
      && feed.position == i < CONTEXT_TOKENS
      && feed.token == (if i < |prompt| then prompt[i] else sampled[i - |prompt|])
      && (feed.logits <==> i >= |prompt| - 1)
  {
    GenerationIsAutoregressive(model, prompt, []);
  }

  lemma GenerateUnfolds(model: Model, prompt: seq<Token>, batches: seq<Batch>, sampled: seq<Token>, token: Token)
    requires |sampled| < Limit(prompt) && Fed(batches, prompt + sampled, |prompt|)
      && token == model.sample(Flatten(batches))
    ensures var g := Generate(model, prompt, sampled);
      && sampled + [token] <= g
      && if model.ends(token) || |sampled| + 1 == Limit(prompt) then g == sampled + [token]
         else g == Generate(model, prompt, sampled + [token])
  {
    GenerationIsAutoregressive(model, prompt, sampled + [token]);
  }

  lemma TextGrows(model: Model, sampled: seq<Token>, token: Token)
    ensures var more := sampled + [token];
      TextOf(model, more)
      == if model.ends(token) then TextOf(model, sampled) else TextOf(model, sampled) + PieceText(model.piece(more))
  {
    assert (sampled + [token])[..|sampled|] == sampled;
  }

  // ---------------------------------------------------------------------- the decoding loops

  /** The decoded batches hold the first fed of the prompt and the sampled tokens, in batches of admissible size. */
  ghost predicate Fed(batches: seq<Batch>, all: seq<Token>, n: nat) {
    && Flatten(batches) == Feeds(all, n)
    && forall i :: 0 <= i < |batches| ==> 1 <= |batches[i]| <= PROMPT_BATCH_TOKENS
  }

  lemma OneMoreBatch(batches: seq<Batch>, all: seq<Token>, more: seq<Token>, n: nat, batch: Batch)
    requires Fed(batches, all, n) && 1 <= |batch| <= PROMPT_BATCH_TOKENS && |batch| == |more|
    requires forall i :: 0 <= i < |batch| ==> batch[i] == Feed(more[i], |all| + i, |all| + i + 1 >= n)
    ensures Fed(batches + [batch], all + more, n)
  {
    assert (batches + [batch])[..|batches|] == batches;
    assert Flatten(batches + [batch]) == Feeds(all, n) + batch;
    assert Feeds(all, n) + batch == Feeds(all + more, n);
  }

  lemma OneMoreToken(batches: seq<Batch>, prompt: seq<Token>, sampled: seq<Token>, token: Token)
    requires Fed(batches, prompt + sampled, |prompt|)
    ensures Fed(batches + [[Feed(token, |prompt| + |sampled|, true)]], prompt + (sampled + [token]), |prompt|)
  {
    OneMoreBatch(batches, prompt + sampled, [token], |prompt|, [Feed(token, |prompt| + |sampled|, true)]);
    assert (prompt + sampled) + [token] == prompt + (sampled + [token]);
  }

  /** The prompt loop. */
  method DecodePrompt(model: Model, tokens: seq<Token>) returns (ok: bool, batches: seq<Batch>)
    requires tokens != [] && |tokens| < CONTEXT_TOKENS
    ensures ok ==> Fed(batches, tokens, |tokens|)
    ensures !ok ==>
      && batches != [] && !model.decodes(batches)
      && exists fed :: 0 < fed <= |tokens| && Fed(batches, tokens[..fed], |tokens|)
  {
    batches := [];
    var start := 0;
    while start < |tokens|
      invariant 0 <= start <= |tokens| && Fed(batches, tokens[..start], |tokens|)
    {
      var end := if start + PROMPT_BATCH_TOKENS < |tokens| then start + PROMPT_BATCH_TOKENS else |tokens|;
      var chunk := tokens[start..end];
      var batch: Batch := [];
      var offset := 0;
      while offset < |chunk|
        invariant 0 <= offset <= |chunk| && |batch| == offset
        invariant forall i :: 0 <= i < offset ==> batch[i] == Feed(chunk[i], start + i, start + i + 1 >= |tokens|)
      {
        // The conversion to a 32-bit position and the addition to a batch of this capacity succeed.
        assert start + offset <= MAX_I32 && |batch| < |chunk|;
        batch := batch + [Feed(chunk[offset], start + offset, start + offset + 1 == |tokens|)];
        offset := offset + 1;
      }
      OneMoreBatch(batches, tokens[..start], chunk, |tokens|, batch);
      assert tokens[..start] + chunk == tokens[..end];
      batches := batches + [batch];
      if !model.decodes(batches) {
        return false, batches;
      }
      start := end;
    }
    assert tokens[..start] == tokens;
    ok := true;
  }

  /** run_inference_attempt from the prompt tokens on. The outcome is stated against plain generation:
      what is fed, what is sampled after what, when it stops, and what text comes out. */
  method RunInference(model: Model, tokens: seq<Token>) returns (r: Result, batches: seq<Batch>, sampled: seq<Token>)
    ensures tokens == [] <==> r == Err(EmptyPrompt)
    ensures |tokens| >= CONTEXT_TOKENS <==> r == Err(PromptTooLong)
    ensures r == Err(EmptyPrompt) || r == Err(PromptTooLong) ==> batches == [] && sampled == []
    ensures r == Err(PromptNotDecoded) ==> sampled == [] && !model.decodes(batches)
    ensures r == Err(PromptNotDecoded) ==> exists fed :: 0 < fed <= |tokens| && Fed(batches, tokens[..fed], |tokens|)
    ensures r == Err(TokenNotDecoded) ==> !model.decodes(batches) && Fed(batches, tokens + sampled, |tokens|)
    ensures r == Err(TextNotDecoded) ==> sampled != [] && model.piece(sampled) == Unreadable
    ensures r == Err(OutputTooLarge) ==> |TextOf(model, sampled)| > MAX_WORKER_OUTPUT_BYTES
    ensures sampled <= Generate(model, tokens, [])
    ensures r.Done? ==>
      && sampled == Generate(model, tokens, [])
      && r.output == TextOf(model, sampled) + model.tail(sampled)
    ensures r.Done? || r == Err(TextNotDecoded) || r == Err(OutputTooLarge) ==>
      sampled != [] && Fed(batches, tokens + sampled[..|sampled| - 1], |tokens|)
    ensures r.Done? ==>
      && |TextOf(model, sampled)| <= MAX_WORKER_OUTPUT_BYTES
      && |r.output| <= MAX_WORKER_OUTPUT_BYTES + MAX_FLUSH
    ensures r.Done? ==>
      (|r.output| <= MAX_WORKER_OUTPUT_BYTES
       <==> |model.tail(sampled)| <= MAX_WORKER_OUTPUT_BYTES - |TextOf(model, sampled)|)
  {
    batches, sampled := [], [];
    if tokens == [] {
      return Err(EmptyPrompt), batches, sampled;
    }
    if |tokens| >= CONTEXT_TOKENS {
      return Err(PromptTooLong), batches, sampled;
    }
    var ok;
    ok, batches := DecodePrompt(model, tokens);
    if !ok {
      return Err(PromptNotDecoded), batches, sampled;
    }
    hide Fed, Generate, TextOf;
    r, batches, sampled := SampleTokens(model, tokens, batches);
    if r == Err(TokenNotDecoded) {
      GenerationBegins(model, tokens, sampled);
    }
  }

  /** All sampled tokens are decoded and the generation goes on with them. */
  ghost predicate Underway(model: Model, prompt: seq<Token>, batches: seq<Batch>, sampled: seq<Token>) {
    && Fed(batches, prompt + sampled, |prompt|)
    && |sampled| < Limit(prompt) && Generate(model, prompt, sampled) == Generate(model, prompt, [])
  }

  /** All sampled tokens but the last are decoded, and the generation begins with them. */
  ghost predicate Awaiting(model: Model, prompt: seq<Token>, batches: seq<Batch>, sampled: seq<Token>) {
    && sampled != [] && Fed(batches, prompt + sampled[..|sampled| - 1], |prompt|)
    && sampled <= Generate(model, prompt, [])
  }

  ghost predicate Complete(model: Model, prompt: seq<Token>, sampled: seq<Token>) {
    sampled == Generate(model, prompt, [])
  }

  lemma TokenIsSampled(model: Model, prompt: seq<Token>, batches: seq<Batch>, sampled: seq<Token>, token: Token)
    requires Underway(model, prompt, batches, sampled) && token == model.sample(Flatten(batches))
    ensures Awaiting(model, prompt, batches, sampled + [token])
    ensures model.ends(token) || |sampled| + 1 == Limit(prompt) ==> Complete(model, prompt, sampled + [token])
  {
    hide Feeds, Fed, Flatten, Generate;
    GenerateUnfolds(model, prompt, batches, sampled, token);
    assert (sampled + [token])[..|sampled|] == sampled;
  }

  lemma TokenIsFed(model: Model, prompt: seq<Token>, batches: seq<Batch>, sampled: seq<Token>, token: Token, feed: Feed)
    requires Underway(model, prompt, batches, sampled) && token == model.sample(Flatten(batches)) && !model.ends(token)
    requires |sampled| + 1 < Limit(prompt) && feed == Feed(token, |prompt| + |sampled|, true)
    ensures Underway(model, prompt, batches + [[feed]], sampled + [token])
  {
    GenerateUnfolds(model, prompt, batches, sampled, token);
    hide Feeds, Flatten, Generate;
    OneMoreToken(batches, prompt, sampled, token);
  }

  lemma GenerationBegins(model: Model, prompt: seq<Token>, sampled: seq<Token>)
    requires |sampled| <= Limit(prompt) && Generate(model, prompt, sampled) == Generate(model, prompt, [])
    ensures sampled <= Generate(model, prompt, [])
  {
    GenerationIsAutoregressive(model, prompt, sampled);
  }

  /** The sampling loop and the flush, after the prompt. */
  method SampleTokens(model: Model, tokens: seq<Token>, decoded: seq<Batch>)
      returns (r: Result, batches: seq<Batch>, sampled: seq<Token>)
    requires 0 < |tokens| < CONTEXT_TOKENS && Underway(model, tokens, decoded, [])
    ensures r.Err? ==> r.failure.TokenNotDecoded? || r.failure.TextNotDecoded? || r.failure.OutputTooLarge?
    ensures r == Err(TokenNotDecoded) ==> !model.decodes(batches) && Underway(model, tokens, batches, sampled)
    ensures r == Err(TextNotDecoded) ==> model.piece(sampled) == Unreadable
    ensures r == Err(OutputTooLarge) ==> |TextOf(model, sampled)| > MAX_WORKER_OUTPUT_BYTES
    ensures r != Err(TokenNotDecoded) ==> Awaiting(model, tokens, batches, sampled)
    ensures r.Done? ==>
      && Complete(model, tokens, sampled) && |TextOf(model, sampled)| <= MAX_WORKER_OUTPUT_BYTES
      && r.output == TextOf(model, sampled) + model.tail(sampled)
  {
    batches, sampled := decoded, [];
    assert TextOf(model, []) == [];
    hide Underway, Awaiting, Complete, Flatten, TextOf, PieceText;
    var available := CONTEXT_TOKENS - |tokens|;
    var generationLimit := if available < MAX_GENERATED_TOKENS then available else MAX_GENERATED_TOKENS;
    assert generationLimit == Limit(tokens) <= CONTEXT_TOKENS - |tokens|;
    hide Limit;
    var output: Bytes := [];
    var position, generated := |tokens|, 0;
    while generated < generationLimit
      invariant 0 <= generated < generationLimit == Limit(tokens)
      invariant position == |tokens| + generated && |sampled| == generated
      invariant Underway(model, tokens, batches, sampled)
      invariant output == TextOf(model, sampled) && |output| <= MAX_WORKER_OUTPUT_BYTES
    {
      var token := model.sample(Flatten(batches));
      TokenIsSampled(model, tokens, batches, sampled, token);
      TextGrows(model, sampled, token);
      ghost var before := sampled;
      sampled := sampled + [token];
      assert |sampled| == generated + 1;
      if model.ends(token) {
        break;
      }
      var piece := model.piece(sampled);
      if piece.Unreadable? {
        return Err(TextNotDecoded), batches, sampled;
      }
      output := output + PieceText(piece);
      if |output| > MAX_WORKER_OUTPUT_BYTES {
        return Err(OutputTooLarge), batches, sampled;
      }
      if generated + 1 == generationLimit {
        break;
      }
      // The position is inside the context and fits 32 bits.
      assert position < CONTEXT_TOKENS <= MAX_I32;
      var feed := Feed(token, position, true);
      TokenIsFed(model, tokens, batches, before, token, feed);
      batches := batches + [[feed]];
      if !model.decodes(batches) {
        return Err(TokenNotDecoded), batches, sampled;
      }
      position, generated := position + 1, generated + 1;
    }
    r := Done(output + model.tail(sampled));
  }

  // ---------------------------------------------------------------------- a flush beyond the limit

  /** A model that ends after one token, whose text fills the limit while the decoder holds an unfinished
      character, which it flushes as U+FFFD. */
  function OverflowingModel(prompt: seq<Token>): Model {
    Model(feeds => if |feeds| == |prompt| then 1 else 0, token => token == 0, batches => true,
          sampled => Text(seq(if |sampled| == 1 then MAX_WORKER_OUTPUT_BYTES else 0, _ => 97)),
          sampled => [0xEF, 0xBF, 0xBD])
  }

  /** For every admissible prompt there is a model with which the decoding ends well and beyond the limit. */
  method FlushExceedsTheLimit(prompt: seq<Token>) returns (r: Result, sampled: seq<Token>)
    requires 0 < |prompt| < CONTEXT_TOKENS
    ensures r.Done? && |r.output| == MAX_WORKER_OUTPUT_BYTES + 3
    ensures r.output == TextOf(OverflowingModel(prompt), sampled) + OverflowingModel(prompt).tail(sampled)
  {
    var batches;
    var model := OverflowingModel(prompt);
    r, batches, sampled := RunInference(model, prompt);
    OverflowingGeneration(prompt);
    assert Generate(model, prompt, [])[..|sampled|] == sampled;
    assert r != Err(TextNotDecoded) && r != Err(OutputTooLarge);
    OutcomeKinds(r);
  }

  lemma OutcomeKinds(r: Result)
    ensures || r.Done? || r == Err(EmptyPrompt) || r == Err(PromptTooLong) || r == Err(PromptNotDecoded)
            || r == Err(TokenNotDecoded) || r == Err(TextNotDecoded) || r == Err(OutputTooLarge)
  {
    match r
    case Done(_) =>
    case Err(failure) =>
      assert failure.EmptyPrompt? || failure.PromptTooLong? || failure.PromptNotDecoded? || failure.TokenNotDecoded?
          || failure.TextNotDecoded? || failure.OutputTooLarge?;
  }

  lemma OverflowingGeneration(prompt: seq<Token>)
    requires 0 < |prompt| < CONTEXT_TOKENS
    ensures var model := OverflowingModel(prompt); var sampled := Generate(model, prompt, []);
      && sampled == (if |prompt| == CONTEXT_TOKENS - 1 then [1] else [1, 0])
      && (forall n :: 0 < n <= |sampled| ==> |TextOf(model, sampled[..n])| == MAX_WORKER_OUTPUT_BYTES)
      && |TextOf(model, sampled) + model.tail(sampled)| > MAX_WORKER_OUTPUT_BYTES
  {
    hide Generate, TextOf, Limit;
    var model := OverflowingModel(prompt);
    OverflowingTokens(prompt);
    OverflowingText(prompt);
    var sampled := Generate(model, prompt, []);
    forall n | 0 < n <= |sampled| ensures |TextOf(model, sampled[..n])| == MAX_WORKER_OUTPUT_BYTES {
      assert sampled[..n] == if n == 1 then [1] else [1, 0];
    }
    assert sampled[..|sampled|] == sampled;
  }

  lemma OverflowingText(prompt: seq<Token>)
    ensures var model := OverflowingModel(prompt);
      |TextOf(model, [1])| == MAX_WORKER_OUTPUT_BYTES && TextOf(model, [1, 0]) == TextOf(model, [1])
  {
    var model := OverflowingModel(prompt);
    TextGrows(model, [], 1);
    TextGrows(model, [1], 0);
    assert [] + [1] == [1] && [1] + [0] == [1, 0];
  }

  lemma OverflowingTokens(prompt: seq<Token>)
    requires 0 < |prompt| < CONTEXT_TOKENS
    ensures Generate(OverflowingModel(prompt), prompt, []) == if |prompt| == CONTEXT_TOKENS - 1 then [1] else [1, 0]
  {
    var model := OverflowingModel(prompt);
    hide Generate;
    OverflowingStep(prompt, []);
    assert [] + [1] == [1] && [1] + [0] == [1, 0];
    if |prompt| == CONTEXT_TOKENS - 1 {
      GenerationEnds(model, prompt, [1]);
    } else {
      OverflowingStep(prompt, [1]);
    }
  }

  lemma GenerationEnds(model: Model, prompt: seq<Token>, sampled: seq<Token>)
    requires |sampled| >= Limit(prompt)
    ensures Generate(model, prompt, sampled) == sampled
  {
  }

  lemma OverflowingStep(prompt: seq<Token>, sampled: seq<Token>)
    requires |sampled| < Limit(prompt)
    ensures var model := OverflowingModel(prompt);
      Generate(model, prompt, sampled)
      == if sampled == [] then Generate(model, prompt, sampled + [1]) else sampled + [0]
  {
    assert |Feeds(prompt + sampled, |prompt|)| == |prompt| + |sampled|;
  }
}
