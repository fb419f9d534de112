/** Memories of the vault, as far as the passes that change them look at them. */
module Memories {
  import opened StoredText
  import opened Wrappers

  type Id = string

  datatype Mem = Mem(
    essence: string,
    layer: int,
    decayImmune: bool,
    invalid: bool,
    replacedBy: Option<Id>,
    clusteredInto: Option<Id>)

  type Vault = map<Id, Mem>

  const LAYER_L0 := 0
  const DEFAULT_LAYER := 2

  /** The memories no automatic pass may modify. */
  predicate Protected(m: Mem) { m.layer == LAYER_L0 || m.decayImmune }

  /** A new memory with the given stored text. */
  function Fresh(essence: string): Mem { Mem(essence, DEFAULT_LAYER, false, false, None, None) }

  /** The links a memory file gets: they depend on the vault, the memory and its text. */
  type Linker = (Vault, Id, string) -> seq<Stem>

  /** What the memory's essence is after writing and parsing it. */
  function Restored(links: Linker, v: Vault, id: Id, text: string): string { Stored(text, links(v, id, text)) }

  /** A new memory made from that text: nothing about it is special, and its essence is the text
      as it is stored with the links of some moment. */
  ghost predicate MadeFrom(m: Mem, text: string) {
    && m.layer == 2 && !m.decayImmune && !m.invalid && m.replacedBy.None? && m.clusteredInto.None?
    && exists links :: m.essence == Stored(text, links)
  }

  lemma FreshIsMade(links: Linker, v: Vault, id: Id, text: string)
    ensures MadeFrom(Fresh(Restored(links, v, id, text)), text)
  {
  }

  /** Changing a field of a memory writes its file again. */
  function Resaved(links: Linker, v: Vault, id: Id, m: Mem): Mem {
    m.(essence := Restored(links, v, id, m.essence))
  }

  /** `after` is `m`, written again; a settled essence stays. */
  predicate IsResaved(m: Mem, after: Mem) {
    after == m.(essence := after.essence) && (Settled(m.essence) ==> after == m)
  }

  lemma ResavedIs(links: Linker, v: Vault, id: Id, m: Mem)
    ensures IsResaved(m, Resaved(links, v, id, m))
  {
    if Settled(m.essence) {
      SettledStays(m.essence, links(v, id, m.essence));
    }
  }

  /** Invalidating a memory writes its file again. */
  function Invalidated(links: Linker, v: Vault, target: Id, heir: Id): Vault {
    if target !in v then v
    else
      var m := v[target];
      v[target := Resaved(links, v, target, m.(invalid := true, replacedBy := Some(heir)))]
  }

  /** `after` is `before`, invalidated in favour of `heir`; a settled essence stays. */
  predicate PointsTo(before: Mem, after: Mem, heir: Id) {
    && after == before.(essence := after.essence, invalid := true, replacedBy := Some(heir))
    && (Settled(before.essence) ==> after.essence == before.essence)
  }

  lemma InvalidatedPointsTo(links: Linker, v: Vault, target: Id, heir: Id)
    requires target in v
    ensures PointsTo(v[target], Invalidated(links, v, target, heir)[target], heir)
  {
    var essence := v[target].essence;
    if Settled(essence) {
      SettledStays(essence, links(v, target, essence));
    }
  }
}
