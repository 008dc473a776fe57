/** frontend/src/Add_product.jsx, `handleSubmit`: the add-product form's
    payload and the navigation after the POST. */
module AddProduct {
  import opened Wrappers
  import opened Text
  import opened Catalog

  /** The form's five text inputs. */
  datatype Form = Form(title: string, description: string, price: string, imageUrl: string, tags: string)

  /** The body of POST /products. The price is the typed text; its conversion by
      `Number(price)` is floating-point parsing and is not modelled. */
  datatype Payload = Payload(title: string, description: string, price: string,
                             images: seq<string>, tags: seq<string>, reviews: seq<Review>)

  /** `text.split(",").map(x => x.trim())`: one piece per comma plus one, each
      free of commas and of white space at either end. */
  function CommaList(text: string): (r: seq<string>)
    ensures |r| == Count(text, ',') + 1
    ensures forall i :: 0 <= i < |r| ==> Trimmed(r[i]) && ',' !in r[i]
  {
    TrimAll(Split(text, ','))
  }

  /** The payload `handleSubmit` posts. */
  function BuildPayload(form: Form): (p: Payload)
    ensures p.title == form.title && p.description == form.description && p.price == form.price
    ensures p.images == CommaList(form.imageUrl) && p.tags == CommaList(form.tags)
    ensures p.reviews == []
  {
    Payload(form.title, form.description, form.price, CommaList(form.imageUrl), CommaList(form.tags), [])
  }

  /** An empty tag input still sends one tag, the empty string. */
  lemma EmptyTagsGiveOneEmptyTag(form: Form)
    requires form.tags == ""
    ensures BuildPayload(form).tags == [""]
  {
    assert Trim("") == "";
  }

  /** When no piece had white space around it, trimming changes nothing and
      joining the pieces with commas gives back exactly the typed text. */
  lemma {:induction false} CommaListRoundTrip(text: string)
    requires forall i :: 0 <= i < |Split(text, ',')| ==> Trimmed(Split(text, ',')[i])
    ensures Join(CommaList(text), ',') == text
  {
    var pieces := Split(text, ',');
    var trimmed := TrimAll(pieces);
    forall i | 0 <= i < |pieces| ensures trimmed[i] == pieces[i] {
      TrimOfTrimmed(pieces[i]);
    }
    assert trimmed == pieces;
    JoinSplit(text, ',');
  }

  /** `handleSubmit`: posts the payload; navigates to "/" exactly when the POST
      succeeds. The server's answer is the parameter `response`. */
  method HandleSubmit(form: Form, response: Result<(), RequestError>) returns (sent: Payload, navigateTo: Option<string>)
    ensures sent == BuildPayload(form)
    ensures navigateTo == (if response.Ok? then Some("/") else None)
  {
    sent := Payload(form.title, form.description, form.price,
                    TrimAll(Split(form.imageUrl, ',')), TrimAll(Split(form.tags, ',')), []);
    if response.Ok? {
      navigateTo := Some("/");
    } else {
      navigateTo := None;
    }
  }
}
