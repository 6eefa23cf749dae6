/**
 * The record shared by every part of the prompt app (types.ts): a Prompt, its
 * optional fields, and the JavaScript truthiness rules the code applies to them.
 */
module Types {

  datatype Option<T> = None | Some(value: T)

  /**
   * A prompt record. Fields that the TypeScript type marks optional (`author?`,
   * `rating?`, `downloads?`, `isFavorite?`, `isPublished?`) are `Option`s, so that an
   * absent metric stays distinguishable from a measured zero. `description` is
   * optional too, because an imported record is stored as it came, and it may lack one.
   * `createdAt` stands for the ISO timestamp by its position in time; a rating is an
   * integer number of tenths (4.9 is 49).
   */
  datatype Prompt = Prompt(
    id: string,
    title: string,
    description: Option<string>,
    content: string,
    category: string,
    createdAt: int,
    author: Option<string>,
    rating: Option<int>,
    downloads: Option<int>,
    isFavorite: Option<bool>,
    isPublished: Option<bool>)

  /** The fifteen category labels of the `Category` enumeration, in declaration order. */
  const Categories: seq<string> := [
    "Marketing", "Educación", "Social Media", "Escritura", "Creatividad",
    "Análisis de datos", "Codificación", "Investigación", "Negocios", "Tecnología",
    "Salud y Bienestar", "Finanzas", "Viajes", "Arte y Diseño", "Otras"]

  /** An optional flag is truthy only when it is present and true. */
  predicate Truthy(b: Option<bool>) {
    b == Some(true)
  }

  /** An optional string is truthy when it is present and not empty. */
  predicate TruthyText(s: Option<string>) {
    s.Some? && s.value != ""
  }

  /** `(n || 0)`: an absent number reads as zero. */
  function OrZero(n: Option<int>): int {
    if n.Some? then n.value else 0
  }

  predicate IsFavorite(p: Prompt) {
    Truthy(p.isFavorite)
  }

  predicate IsPublished(p: Prompt) {
    Truthy(p.isPublished)
  }

  function Ids(ps: seq<Prompt>): set<string> {
    set p | p in ps :: p.id
  }

  /** No two entries of the list share an id. */
  predicate DistinctIds(ps: seq<Prompt>) {
    forall i, j :: 0 <= i < j < |ps| ==> ps[i].id != ps[j].id
  }

  /** The ids of the entries that are marked published. */
  function PublishedIds(ps: seq<Prompt>): set<string> {
    set p | p in ps && IsPublished(p) :: p.id
  }
}
