/**
  Input preparation for the three forward branches (llava_llama_combined.py,
  prepare_inputs_for_generation, _cd and _agla).  The three source functions
  are one function here, keyed by the conditioning variant: they differ only in
  which keyword argument supplies the `images` entry.
*/
module BranchInputs {
  import opened Wrappers

  /** Token ids of the batch: one row per sequence. */
  type TokenIds = seq<seq<int>>
  /** An image tensor, flattened. */
  type Image = seq<real>
  /** The key/value cache: a tuple of per-layer tensors (flattened). */
  type Cache = seq<seq<real>>
  /** An attention mask, one row per sequence. */
  type Mask = seq<seq<int>>
  /** Input embeddings, one flattened tensor per sequence. */
  type Embeds = seq<seq<real>>

  datatype Variant = Base | Noise | Augmented

  /** The generation keyword arguments a branch carries from step to step. */
  datatype Kwargs = Kwargs(
    pastKeyValues: Option<Cache>,
    attentionMask: Option<Mask>,
    inputsEmbeds: Option<Embeds>,
    useCache: Option<bool>,
    images: Option<Image>,
    imagesCd: Option<Image>,
    imagesAgla: Option<Image>,
    cdAlpha: Option<real>,
    cdBeta: Option<real>,
    aglaAlpha: Option<real>,
    aglaBeta: Option<real>)

  datatype TokenInput = InputIds(ids: TokenIds) | InputsEmbeds(embeds: Embeds)

  /** The dictionary handed to the model's forward pass. */
  datatype ModelInputs = ModelInputs(
    tokens: TokenInput,
    pastKeyValues: Option<Cache>,
    useCache: Option<bool>,
    attentionMask: Option<Mask>,
    images: Option<Image>)

  /** Python truthiness of `past_key_values`: present and non-empty. */
  predicate HasCache(kw: Kwargs) {
    kw.pastKeyValues.Some? && |kw.pastKeyValues.value| > 0
  }

  /** `input_ids[:, -1:]`, the last column of every row (an empty row stays empty). */
  function LastColumn(ids: TokenIds): (r: TokenIds)
    ensures |r| == |ids|
    ensures forall k :: 0 <= k < |ids| ==> r[k] == (if |ids[k]| == 0 then [] else [ids[k][|ids[k]| - 1]])
  {
    seq(|ids|, k requires 0 <= k < |ids| => if |ids[k]| == 0 then [] else ids[k][|ids[k]| - 1..])
  }

  /** The keyword argument that supplies a variant's image. */
  function ImageOf(v: Variant, kw: Kwargs): Option<Image> {
    match v
    case Base => kw.images
    case Noise => kw.imagesCd
    case Augmented => kw.imagesAgla
  }

  /** prepare_inputs_for_generation{,_cd,_agla} (lines 160-233). */
  function PrepareInputs(v: Variant, inputIds: TokenIds, kw: Kwargs): (m: ModelInputs)
    ensures m.pastKeyValues == kw.pastKeyValues
    ensures m.useCache == kw.useCache
    ensures m.attentionMask == kw.attentionMask
  {
    var ids := if HasCache(kw) then LastColumn(inputIds) else inputIds;
    var tokens :=
      if kw.inputsEmbeds.Some? && kw.pastKeyValues.None? then InputsEmbeds(kw.inputsEmbeds.value)
      else InputIds(ids);
    ModelInputs(tokens, kw.pastKeyValues, kw.useCache, kw.attentionMask, ImageOf(v, kw))
  }

  // ---------------------------------------------------------------------------
  // Properties

  /** With a (truthy) cache only the last token of each row is fed; without one,
      the full rows are, unless embeddings replace them. */
  lemma CacheTruncatesToLastToken(v: Variant, inputIds: TokenIds, kw: Kwargs)
    requires kw.inputsEmbeds.None? || kw.pastKeyValues.Some?
    ensures PrepareInputs(v, inputIds, kw).tokens.InputIds?
    ensures HasCache(kw) ==> forall k :: 0 <= k < |inputIds| && |inputIds[k]| > 0 ==>
      PrepareInputs(v, inputIds, kw).tokens.ids[k] == [inputIds[k][|inputIds[k]| - 1]]
    ensures !HasCache(kw) ==> PrepareInputs(v, inputIds, kw).tokens.ids == inputIds
  {
  }

  /** inputs_embeds is used exactly when it is given and past_key_values is None.
      An EMPTY cache is not None: it neither truncates the ids nor admits the
      embeddings. */
  lemma EmbedsOnlyWithoutCache(v: Variant, inputIds: TokenIds, kw: Kwargs)
    ensures PrepareInputs(v, inputIds, kw).tokens.InputsEmbeds? <==>
              (kw.inputsEmbeds.Some? && kw.pastKeyValues.None?)
    ensures PrepareInputs(v, inputIds, kw).tokens.InputsEmbeds? ==>
              PrepareInputs(v, inputIds, kw).tokens.embeds == kw.inputsEmbeds.value
    ensures kw.pastKeyValues == Some([]) ==> PrepareInputs(v, inputIds, kw).tokens == InputIds(inputIds)
  {
  }

  /** The three variants build the same dictionary except for `images`, which is
      taken from images, images_cd or images_agla (None when that key is absent). */
  lemma VariantsDifferOnlyInImages(v: Variant, w: Variant, inputIds: TokenIds, kw: Kwargs)
    ensures PrepareInputs(v, inputIds, kw).(images := None) == PrepareInputs(w, inputIds, kw).(images := None)
    ensures PrepareInputs(Base, inputIds, kw).images == kw.images
    ensures PrepareInputs(Noise, inputIds, kw).images == kw.imagesCd
    ensures PrepareInputs(Augmented, inputIds, kw).images == kw.imagesAgla
  {
  }
}
