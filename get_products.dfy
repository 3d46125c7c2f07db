/** The storefront's product fetch: the parsed response body is normalised to a
    list of products, every failure becomes the empty list, and in the browser
    each call aborts the request before it and installs a controller of its own. */
module Products {
  import opened Catalog

  /** A parsed JSON value, as `res.json()` yields it. Numbers are kept as
      integers; an object is a map, after the parser has kept the last of any
      repeated keys. */
  datatype Json =
    | JNull
    | JBool(b: bool)
    | JNumber(n: int)
    | JString(s: string)
    | JArray(elems: seq<Json>)
    | JObject(fields: map<string, Json>)

  /** `json.key` when it is an array (`Array.isArray(json.key)`), and nothing
      otherwise. Only an object has fields: a property read on `null` is
      short-circuited by `json && …`, and one on a string, number or boolean is
      `undefined`. */
  function ArrayField(body: Json, key: string): (elems: Option<seq<Json>>)
    ensures elems.Some? <==> body.JObject? && key in body.fields && body.fields[key].JArray?
    ensures elems.Some? ==> body.fields[key] == JArray(elems.value)
  {
    if body.JObject? && key in body.fields && body.fields[key].JArray?
    then Some(body.fields[key].elems)
    else None
  }

  /** The body normalised to a product list: a bare array as it is, else the
      `products` array, else the `data` array, else the empty list. Whatever
      comes back is one of the arrays found at the top of the body, or empty. */
  function Normalize(body: Json): (products: seq<Json>)
    ensures body.JArray? ==> products == body.elems
    ensures !body.JArray? && products != [] ==>
      ArrayField(body, "products") == Some(products)
      || (ArrayField(body, "products").None? && ArrayField(body, "data") == Some(products))
    ensures !body.JArray? && !body.JObject? ==> products == []
  {
    if body.JArray? then body.elems
    else match ArrayField(body, "products")
      case Some(elems) => elems
      case None =>
        match ArrayField(body, "data")
        case Some(elems) => elems
        case None => []
  }

  /** A bare array comes back element for element, in order. */
  lemma BareArrayRoundTrip(products: seq<Json>)
    ensures Normalize(JArray(products)) == products
  {
  }

  /** An array wrapped as `{ products: […] }` comes back unwrapped, whatever
      else the envelope holds. */
  lemma ProductsEnvelopeRoundTrip(products: seq<Json>, rest: map<string, Json>)
    ensures Normalize(JObject(rest["products" := JArray(products)])) == products
  {
  }

  /** An array wrapped as `{ data: […] }` comes back unwrapped, as long as the
      envelope has no `products` array. */
  lemma DataEnvelopeRoundTrip(products: seq<Json>, rest: map<string, Json>)
    requires ArrayField(JObject(rest), "products").None?
    ensures Normalize(JObject(rest["data" := JArray(products)])) == products
  {
    assert ArrayField(JObject(rest["data" := JArray(products)]), "products").None?;
  }

  /** When the body carries both a `products` and a `data` array, `products`
      is the one returned. */
  lemma ProductsBeforeData(products: seq<Json>, data: seq<Json>)
    ensures Normalize(JObject(map["products" := JArray(products), "data" := JArray(data)])) == products
  {
  }

  /** A body that is neither an array nor an object holding a `products` or
      `data` array gives the empty list. */
  lemma OtherShapesAreEmpty(body: Json)
    requires !body.JArray?
    requires ArrayField(body, "products").None? && ArrayField(body, "data").None?
    ensures Normalize(body) == []
  {
  }

  /** What the fetch produced: either a parsed body (whatever the HTTP status,
      since the status is not inspected), or a failure of the request itself,
      an abort, or a body that is not JSON. */
  datatype Response = Threw | Body(json: Json)

  /** The list `getProducts` resolves to. A failure is caught and becomes the
      empty list, so the promise never rejects. */
  function ProductsOf(response: Response): (products: seq<Json>)
    ensures response.Threw? ==> products == []
    ensures response.Body? ==> products == Normalize(response.json)
  {
    match response
    case Threw => []
    case Body(json) => Normalize(json)
  }

  /** An `AbortController`, reduced to whether it has been aborted. */
  class Controller {
    var aborted: bool

    constructor()
      ensures !aborted
    {
      aborted := false;
    }

    /** `abort()`: the signal is aborted from now on; aborting twice is the
        same as aborting once. */
    method Abort()
      modifies this
      ensures aborted
    {
      aborted := true;
    }
  }

  /** The module-level `controller` slot shared by every call, together with
      (as ghost state) every controller ever stored in it, oldest first. */
  class Fetcher {
    var controller: Controller?
    ghost var issued: seq<Controller>

    /** The slot holds the newest controller issued, and every controller
        issued before it has been aborted, so at most one signal is live. */
    ghost predicate Valid()
      reads this, issued
    {
      && (controller == null <==> issued == [])
      && (issued != [] ==> controller == issued[|issued| - 1])
      && (forall k | 0 <= k < |issued| - 1 :: issued[k].aborted)
    }

    /** The slot before any call: still unset. */
    constructor()
      ensures Valid()
      ensures controller == null && issued == []
    {
      controller := null;
      issued := [];
    }

    /** `getProducts`. In the browser it aborts the stored controller, if any,
        installs a fresh one and passes its signal on; elsewhere it leaves the
        slot alone and passes no signal. The fetch is the `response` argument,
        and the products are what it normalises to. */
    method GetProducts(isBrowser: bool, response: Response)
      returns (products: seq<Json>, signal: Controller?)
      requires Valid()
      modifies this, controller
      ensures Valid()
      ensures products == ProductsOf(response)
      ensures isBrowser ==>
        && fresh(controller) && signal == controller && !controller.aborted
        && issued == old(issued) + [controller]
        && (old(controller) != null ==> old(controller).aborted)
      ensures !isBrowser ==>
        && signal == null && controller == old(controller) && issued == old(issued)
        && (controller != null ==> controller.aborted == old(controller.aborted))
    {
      if isBrowser {
        if controller != null {
          controller.Abort();
        }
        controller := new Controller();
        issued := issued + [controller];
        signal := controller;
      } else {
        signal := null;
      }
      match response {
        case Threw =>
          products := [];
        case Body(json) =>
          if json.JArray? {
            products := json.elems;
          } else if ArrayField(json, "products").Some? {
            products := json.fields["products"].elems;
          } else if ArrayField(json, "data").Some? {
            products := json.fields["data"].elems;
          } else {
            products := [];
          }
      }
    }

    /** After any sequence of calls, only the newest controller can still be
        live. */
    lemma AtMostOneLive(k: nat)
      requires Valid()
      requires k < |issued| && !issued[k].aborted
      ensures k == |issued| - 1 && issued[k] == controller
    {
    }
  }
}
