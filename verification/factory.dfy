/** Factory Method: `get_pet` looks a discriminator up in a fixed table of
    pets; a key outside the table raises KeyError, it never yields a default. */
module Factory {
  import opened Exceptions

  /** The two product variants, each constructed with a name. */
  datatype Pet = Dog(name: string) | Cat(name: string)

  /** What each variant says. */
  function Speak(p: Pet): (r: string)
    ensures r == "Woof!" <==> p.Dog?
    ensures r == "Meow!" <==> p.Cat?
  {
    match p
    case Dog(_) => "Woof!"
    case Cat(_) => "Meow!"
  }

  /** The table `get_pet` builds on every call. */
  const Pets: map<string, Pet> := map["dog" := Dog("Hope"), "cat" := Cat("Peace")]

  /** The factory method: `pets[pet]`. */
  function GetPet(key: string): (r: Result<Pet>)
    ensures r.Ok? <==> key == "dog" || key == "cat"
    ensures r.Err? ==> r.error == KeyError(key)
    ensures key == "dog" ==> r == Ok(Dog("Hope"))
    ensures key == "cat" ==> r == Ok(Cat("Peace"))
  {
    if key in Pets then Ok(Pets[key]) else Err(KeyError(key))
  }

  /** Each recognised key yields the variant whose speech is fixed for it,
      and a pet that barks can only have come from the "dog" key. */
  lemma SpeechOfKey(key: string)
    ensures GetPet(key).Ok? && Speak(GetPet(key).value) == "Woof!" <==> key == "dog"
    ensures GetPet(key).Ok? && Speak(GetPet(key).value) == "Meow!" <==> key == "cat"
  {
  }

  /** Different recognised keys never produce the same pet. */
  lemma GetPetInjective(k1: string, k2: string)
    requires GetPet(k1).Ok? && GetPet(k2).Ok?
    requires GetPet(k1) == GetPet(k2)
    ensures k1 == k2
  {
  }
}
