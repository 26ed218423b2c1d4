/** The constant catalogue every page reads. */
module Products {
  import opened Shop

  const Catalogue: seq<Product> := [
    Product(
      "1", "Website Personal", 60000,
      "https://images.pexels.com/photos/196644/pexels-photo-196644.jpeg?auto=compress&cs=tinysrgb&w=500",
      "Buat Website Personal"),
    Product(
      "2", "Stock Foto Estetik", 30000,
      "https://images.pexels.com/photos/1779487/pexels-photo-1779487.jpeg?auto=compress&cs=tinysrgb&w=500",
      "Stock foto estetik"),
    Product(
      "3", "Online Course", 110000,
      "https://images.pexels.com/photos/5428836/pexels-photo-5428836.jpeg?auto=compress&cs=tinysrgb&w=500",
      "Online course: motion graphic, buat website personal dengan AI, dan buat game Roblox Studio dengan AI")
  ]

  /** No two catalogue entries share an id. */
  predicate DistinctIds(ps: seq<Product>) {
    forall i, j :: 0 <= i < |ps| && 0 <= j < |ps| && ps[i].id == ps[j].id ==> i == j
  }

  lemma CatalogueIdsDistinct()
    ensures DistinctIds(Catalogue)
    ensures Catalogue[0].id == "1" && Catalogue[1].id == "2" && Catalogue[2].id == "3"
  {
  }
}
