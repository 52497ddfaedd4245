/**
 * The order records of the order-processing script (models.py): an
 * article of an order and the order itself, with their dictionary forms.
 */
module OrderModels {
  import opened Wrappers
  import Json
  import opened PyInt

  datatype Article = Article(aid: Json.Value, number: Json.Value, name: Json.Value, ammount: Json.Value)

  /** `Article.from_dict`: id, number and name from the dictionary, the amount from the argument. */
  function ArticleFromDict(source: Json.Object, ammount: Json.Value): (r: Result<Article, string>)
    ensures r.Ok? <==> "id" in source && "number" in source && "name" in source
    ensures r.Err? ==> r.error == "KeyError"
    ensures r.Ok? ==>
              r.value.aid == source["id"] && r.value.number == source["number"] &&
              r.value.name == source["name"] && r.value.ammount == ammount
  {
    if "id" in source && "number" in source && "name" in source then
      Ok(Article(source["id"], source["number"], source["name"], ammount))
    else Err("KeyError")
  }

  /** `Article.to_dict`. */
  function ArticleToDict(a: Article): Json.Object {
    map["id" := a.aid, "number" := a.number, "name" := a.name, "ammount" := a.ammount]
  }

  /** An article survives the round trip through its dictionary. */
  lemma ArticleRoundTrip(a: Article)
    ensures ArticleFromDict(ArticleToDict(a), a.ammount) == Ok(a)
    ensures ArticleToDict(a).Keys == {"id", "number", "name", "ammount"}
  {
  }

  datatype Order = Order(
    oid: int, date: Json.Value, state: Json.Value, articles: Json.Value,
    stage1: Json.Value, stage2: Json.Value, stage3: Json.Value, stage4: Json.Value, stage5: Json.Value)

  /** The source holds every key `Order.from_dict` reads. */
  predicate HasOrderKeys(source: Json.Object) {
    "id" in source && "date" in source && "state" in source && "articles" in source &&
    "stage1" in source && "stage2" in source && "stage3" in source && "stage4" in source && "stage5" in source
  }

  /**
   * `Order.from_dict`: every key is looked up (KeyError when one is
   * missing), then `Order.__init__` coerces the id with `int`.
   */
  function OrderFromDict(source: Json.Object): (r: Result<Order, string>)
    ensures !HasOrderKeys(source) ==> r == Err("KeyError")
    ensures r.Ok? ==>
              HasOrderKeys(source) &&
              IntOf(source["id"]) == Ok(r.value.oid) &&
              r.value.date == source["date"] && r.value.state == source["state"] &&
              r.value.articles == source["articles"] &&
              r.value.stage1 == source["stage1"] && r.value.stage2 == source["stage2"] &&
              r.value.stage3 == source["stage3"] && r.value.stage4 == source["stage4"] &&
              r.value.stage5 == source["stage5"]
  {
    if !HasOrderKeys(source) then Err("KeyError")
    else
      match IntOf(source["id"])
      case Err(e) => Err(e)
      case Ok(oid) =>
        Ok(Order(oid, source["date"], source["state"], source["articles"],
                 source["stage1"], source["stage2"], source["stage3"], source["stage4"], source["stage5"]))
  }

  /** `Order.to_dict`: the articles and each stage wrapped in a one-element list. */
  function OrderToDict(o: Order): (d: Json.Object)
    ensures d.Keys == {"id", "date", "state", "articles", "stage1", "stage2", "stage3", "stage4", "stage5"}
  {
    map[
      "id" := Json.Int(o.oid), "date" := o.date, "state" := o.state,
      "articles" := Json.List([o.articles]),
      "stage1" := Json.List([o.stage1]), "stage2" := Json.List([o.stage2]), "stage3" := Json.List([o.stage3]),
      "stage4" := Json.List([o.stage4]), "stage5" := Json.List([o.stage5])
    ]
  }

  /**
   * Reading an order back from its dictionary keeps the id, date and state
   * but wraps the articles and every stage one list deeper, so the result
   * is never the order itself.
   */
  lemma OrderRoundTripWraps(o: Order)
    ensures OrderFromDict(OrderToDict(o)) ==
              Ok(o.(articles := Json.List([o.articles]),
                    stage1 := Json.List([o.stage1]), stage2 := Json.List([o.stage2]),
                    stage3 := Json.List([o.stage3]), stage4 := Json.List([o.stage4]),
                    stage5 := Json.List([o.stage5])))
    ensures OrderFromDict(OrderToDict(o)) != Ok(o)
  {
    assert Json.List([o.articles]) != o.articles by {
      if o.articles.List? {
        assert o.articles in Json.List([o.articles]).items;
      }
    }
  }
}
