/**
 * The argument guards of the image generator. The request to the remote
 * text-to-image model and the conversion of its answer to base64 JPEG are a
 * foreign call, modelled as an arbitrary function that returns the encoded
 * image or fails with a message.
 */
module ImageGen {
  import opened Basics

  datatype ImageGenerator = ImageGenerator(
    hfApiKey: Option<string>,
    /** The remote call: (API key, prompt) to base64 image data, or a failure. */
    remote: (string, string) -> Result<string>)

  const KeyNotSet: string := "Hugging Face API key not set. Please set it in settings."
  const InvalidPrompt: string := "Invalid prompt provided"
  const InvalidKey: string := "Invalid API key provided"

  /** A generator as constructed: no API key yet. */
  function NewImageGenerator(remote: (string, string) -> Result<string>): (g: ImageGenerator)
    ensures g.hfApiKey == None
  {
    ImageGenerator(None, remote)
  }

  /** `set_api_key`: an empty or missing key is refused and the generator keeps its old key. */
  function SetApiKey(g: ImageGenerator, apiKey: Option<string>): (r: Result<ImageGenerator>)
    ensures r.Ok? <==> Truthy(apiKey)
    ensures r.Ok? ==> r.value.hfApiKey == apiKey
    ensures r.Err? ==> r.message == InvalidKey
  {
    if !Truthy(apiKey) then Err(InvalidKey) else Ok(g.(hfApiKey := apiKey))
  }

  /** `generate_image`: the key is checked first, then the prompt, then the remote call is made. */
  function GenerateImage(g: ImageGenerator, prompt: string): (r: Result<string>)
    ensures !Truthy(g.hfApiKey) ==> r == Err(KeyNotSet)
    ensures Truthy(g.hfApiKey) && prompt == "" ==> r == Err(InvalidPrompt)
    ensures Truthy(g.hfApiKey) && prompt != "" ==> r == g.remote(g.hfApiKey.value, prompt)
  {
    if !Truthy(g.hfApiKey) then Err(KeyNotSet)
    else if prompt == "" then Err(InvalidPrompt)
    else g.remote(g.hfApiKey.value, prompt)
  }
}
